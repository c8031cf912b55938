/**
  * The two time helpers of the audio player: `parseDuration`, which reads
  * an episode's "h:mm:ss" length field, and `formatTime`, which prints a
  * playback position the same way.
  *
  * JavaScript numbers are modelled as the whole numbers the helpers meet
  * plus NaN: a field of ASCII digits is its decimal value ("" is 0, as
  * `Number("")` is), and any other field is NaN.
  */
module AudioTime {
  import opened Wrappers
  import opened Seqs
  import opened Digits

  /** A JavaScript number as far as these helpers are concerned. */
  datatype JsNumber = Num(value: nat) | NaN

  /** `Number(field)`: NaN exactly for a field with a character other than a digit. */
  function ToNumber(field: string): (r: JsNumber)
    ensures r.NaN? <==> !AllDigits(field)
  {
    if AllDigits(field) then Num(DigitsValue(field)) else NaN
  }

  /** A number's decimal digits read back as that number. */
  lemma ToNumberNatToString(n: nat)
    ensures ToNumber(NatToString(n)) == Num(n)
  {
    NatToStringValue(n);
  }

  /** `a + b`: NaN is contagious. */
  function Plus(a: JsNumber, b: JsNumber): JsNumber {
    if a.Num? && b.Num? then Num(a.value + b.value) else NaN
  }

  /** `a * k` for a whole constant `k`. */
  function Times(a: JsNumber, k: nat): JsNumber {
    if a.Num? then Num(a.value * k) else NaN
  }

  /** `a || 0`: NaN and 0 are both falsy. */
  function OrZero(a: JsNumber): JsNumber {
    if a.Num? then a else Num(0)
  }

  // ---------------------------------------------------------------------------
  // split(":") and its inverse

  function IsColon(c: char): bool { c == ':' }

  /** `parts.join(":")` */
  function JoinColon(parts: seq<string>): string
    requires |parts| >= 1
  {
    if |parts| == 1 then parts[0] else parts[0] + ":" + JoinColon(parts[1..])
  }

  /** `s.split(":")`: the fields between the colons; there is always at least one. */
  function SplitColon(s: string): (parts: seq<string>)
    ensures |parts| >= 1
    decreases |s|
  {
    match FirstIndex(s, IsColon)
    case None => [s]
    case Some(i) => [s[..i]] + SplitColon(s[i + 1..])
  }

  /** The fields hold no colon, and joining them with colons gives the string back. */
  lemma {:induction false} SplitColonSpec(s: string)
    ensures forall i :: 0 <= i < |SplitColon(s)| ==> ':' !in SplitColon(s)[i]
    ensures JoinColon(SplitColon(s)) == s
    decreases |s|
  {
    match FirstIndex(s, IsColon)
    case None =>
    case Some(i) =>
      var rest := SplitColon(s[i + 1..]);
      SplitColonSpec(s[i + 1..]);
      assert s == s[..i] + ":" + s[i + 1..];
      assert ':' !in s[..i] by {
        forall j | 0 <= j < i ensures s[..i][j] != ':' {
          assert !IsColon(s[j]);
        }
      }
      assert SplitColon(s) == [s[..i]] + rest;
      assert SplitColon(s)[1..] == rest;
  }

  /** Splitting the join of colon-free fields gives the fields back. */
  lemma {:induction false} SplitJoin(parts: seq<string>)
    requires |parts| >= 1
    requires forall i :: 0 <= i < |parts| ==> ':' !in parts[i]
    ensures SplitColon(JoinColon(parts)) == parts
  {
    var s := JoinColon(parts);
    var head := parts[0];
    if |parts| == 1 {
      assert FirstIndex(s, IsColon).None? by {
        forall j | 0 <= j < |s| ensures !IsColon(s[j]) {
          assert s[j] in head;
        }
      }
    } else {
      var tail := JoinColon(parts[1..]);
      assert s == head + ":" + tail;
      forall j | 0 <= j < |head| ensures !IsColon(s[j]) {
        assert s[j] == head[j];
      }
      assert s[|head|] == ':';
      assert FirstIndex(s, IsColon) == Some(|head|);
      assert s[..|head|] == head;
      assert s[|head| + 1..] == tail;
      SplitJoin(parts[1..]);
      assert parts == [head] + parts[1..];
    }
  }

  // ---------------------------------------------------------------------------
  // parseDuration

  /** `parseDuration(str)`, with `null` written `None`. */
  function ParseDuration(str: Option<string>): (r: JsNumber)
    ensures str.None? || str.value == "" ==> r == Num(0)
    ensures str.Some? && |SplitColon(str.value)| !in {2, 3} ==> r.Num?
  {
    if str.None? || str.value == "" then Num(0)
    else Combine(MapSeq(SplitColon(str.value), ToNumber))
  }

  /** What `parseDuration` makes of the numbers of the fields. */
  function Combine(parts: seq<JsNumber>): JsNumber
    requires |parts| >= 1
  {
    if |parts| == 3 then Plus(Plus(Times(parts[0], 3600), Times(parts[1], 60)), parts[2])
    else if |parts| == 2 then Plus(Times(parts[0], 60), parts[1])
    else OrZero(parts[0])
  }

  /** "h:m:s" is `h * 3600 + m * 60 + s` when all three fields are numbers. */
  lemma ParseHours(h: string, m: string, s: string)
    requires AllDigits(h) && AllDigits(m) && AllDigits(s)
    ensures ParseDuration(Some(JoinColon([h, m, s])))
         == Num(DigitsValue(h) * 3600 + DigitsValue(m) * 60 + DigitsValue(s))
  {
    NoColonInDigits(h);
    NoColonInDigits(m);
    NoColonInDigits(s);
    SplitJoin([h, m, s]);
    assert MapSeq([h, m, s], ToNumber) == [ToNumber(h), ToNumber(m), ToNumber(s)];
  }

  /** "m:s" is `m * 60 + s` when both fields are numbers. */
  lemma ParseMinutes(m: string, s: string)
    requires AllDigits(m) && AllDigits(s)
    ensures ParseDuration(Some(JoinColon([m, s]))) == Num(DigitsValue(m) * 60 + DigitsValue(s))
  {
    NoColonInDigits(m);
    NoColonInDigits(s);
    SplitJoin([m, s]);
    assert MapSeq([m, s], ToNumber) == [ToNumber(m), ToNumber(s)];
  }

  /** A lone field is its value, or 0 when it is not a number. */
  lemma ParseSeconds(f: string)
    requires ':' !in f
    ensures ParseDuration(Some(f)) == if AllDigits(f) then Num(DigitsValue(f)) else Num(0)
  {
    SplitJoin([f]);
  }

  /** Four or more fields: only the first one counts, and 0 stands in when it is not a number. */
  lemma ParseManyFields(parts: seq<string>)
    requires |parts| > 3
    requires forall i :: 0 <= i < |parts| ==> ':' !in parts[i]
    ensures ParseDuration(Some(JoinColon(parts)))
         == if AllDigits(parts[0]) then Num(DigitsValue(parts[0])) else Num(0)
  {
    SplitJoin(parts);
    assert JoinColon(parts) != "" by {
      assert JoinColon(parts) == parts[0] + ":" + JoinColon(parts[1..]);
    }
    assert MapSeq(parts, ToNumber)[0] == ToNumber(parts[0]);
  }

  /** "m:s" is NaN exactly when one of its fields is not a number. */
  lemma ParseNotANumber(m: string, s: string)
    requires ':' !in m && ':' !in s
    ensures ParseDuration(Some(JoinColon([m, s]))) == NaN <==> !AllDigits(m) || !AllDigits(s)
  {
    SplitJoin([m, s]);
    assert MapSeq([m, s], ToNumber) == [ToNumber(m), ToNumber(s)];
  }

  /** "h:m:s" is NaN exactly when one of its fields is not a number. */
  lemma ParseHoursNotANumber(h: string, m: string, s: string)
    requires ':' !in h && ':' !in m && ':' !in s
    ensures ParseDuration(Some(JoinColon([h, m, s]))) == NaN <==> !AllDigits(h) || !AllDigits(m) || !AllDigits(s)
  {
    SplitJoin([h, m, s]);
    assert MapSeq([h, m, s], ToNumber) == [ToNumber(h), ToNumber(m), ToNumber(s)];
  }

  lemma NoColonInDigits(s: string)
    requires AllDigits(s)
    ensures ':' !in s
  {
  }

  // ---------------------------------------------------------------------------
  // formatTime

  /** `s.padStart(2, "0")`: `s` behind as many zeros as make it two characters long. */
  function Pad2(s: string): (r: string)
    ensures |r| == if |s| < 2 then 2 else |s|
    ensures r == "00"[..|r| - |s|] + s
  {
    if |s| == 0 then "00" else if |s| == 1 then "0" + s else s
  }

  /** Padding a number's digits keeps its value and makes it at least two characters long. */
  lemma Pad2Value(n: nat)
    ensures AllDigits(Pad2(NatToString(n)))
    ensures DigitsValue(Pad2(NatToString(n))) == n
    ensures |Pad2(NatToString(n))| >= 2
    ensures n < 100 ==> |Pad2(NatToString(n))| == 2
  {
    NatToStringValue(n);
    LeadingZeroValue(NatToString(n));
    if n < 100 {
      NatToStringShort(n);
    }
  }

  lemma NatToStringShort(n: nat)
    requires n < 100
    ensures |NatToString(n)| <= 2
  {
    if n >= 10 {
      assert NatToString(n / 10) == [DigitChar(n / 10)];
    }
  }

  /**
    * `formatTime(seconds)` for a whole, non-negative number of seconds: the
    * template `${h}:${pad(m)}:${pad(sec)}` from an hour on and
    * `${m}:${pad(sec)}` under an hour (minutes unpadded), written as the
    * fields joined by colons.
    */
  function FormatTime(seconds: nat): (r: string)
    ensures |r| >= if seconds < 3600 then 4 else 7
  {
    var h := seconds / 3600;
    var m := (seconds % 3600) / 60;
    var sec := seconds % 60;
    if h > 0 then
      var fields := [NatToString(h), Pad2(NatToString(m)), Pad2(NatToString(sec))];
      assert fields[1..] == [fields[1], fields[2]] && fields[1..][1..] == [fields[2]];
      assert |JoinColon(fields[1..])| == |fields[1]| + 1 + |fields[2]|;
      assert |JoinColon(fields)| == |fields[0]| + 1 + |JoinColon(fields[1..])|;
      JoinColon(fields)
    else
      var fields := [NatToString(m), Pad2(NatToString(sec))];
      assert fields[1..] == [fields[1]];
      assert |JoinColon(fields)| == |fields[0]| + 1 + |fields[1]|;
      JoinColon(fields)
  }

  /**
    * The fields `formatTime` prints: two under an hour and three from an
    * hour on; every field but the first has exactly two digits; the fields
    * read back as the hours, the minutes within the hour and the seconds
    * within the minute.
    */
  lemma FormatTimeFields(n: nat)
    ensures var parts := SplitColon(FormatTime(n));
      && (|parts| == 2 <==> n < 3600)
      && (|parts| == 3 <==> n >= 3600)
      && (forall i :: 0 <= i < |parts| ==> AllDigits(parts[i]))
      && (forall i :: 0 < i < |parts| ==> |parts[i]| == 2)
      && DigitsValue(parts[|parts| - 1]) == n % 60
      && DigitsValue(parts[|parts| - 2]) == (n % 3600) / 60
      && (|parts| == 3 ==> DigitsValue(parts[0]) == n / 3600)
  {
    var m, sec := (n % 3600) / 60, n % 60;
    Pad2Value(m);
    Pad2Value(sec);
    var parts := SplitColon(FormatTime(n));
    if n >= 3600 {
      NatToStringValue(n / 3600);
      FieldsFromHour(n);
      assert AllDigits(parts[0]) && AllDigits(parts[1]) && AllDigits(parts[2]);
    } else {
      NatToStringValue(m);
      FieldsUnderHour(n);
      assert AllDigits(parts[0]) && AllDigits(parts[1]);
    }
  }

  lemma FieldsUnderHour(n: nat)
    requires n < 3600
    ensures SplitColon(FormatTime(n)) == [NatToString((n % 3600) / 60), Pad2(NatToString(n % 60))]
  {
    Pad2Value(n % 60);
    FieldsSplit([NatToString((n % 3600) / 60), Pad2(NatToString(n % 60))]);
  }

  lemma FieldsFromHour(n: nat)
    requires n >= 3600
    ensures SplitColon(FormatTime(n)) ==
              [NatToString(n / 3600), Pad2(NatToString((n % 3600) / 60)), Pad2(NatToString(n % 60))]
  {
    Pad2Value((n % 3600) / 60);
    Pad2Value(n % 60);
    FieldsSplit([NatToString(n / 3600), Pad2(NatToString((n % 3600) / 60)), Pad2(NatToString(n % 60))]);
  }

  /** Fields made of digits come back unchanged from splitting their colon-joined form. */
  lemma FieldsSplit(parts: seq<string>)
    requires |parts| >= 1
    requires forall i :: 0 <= i < |parts| ==> AllDigits(parts[i])
    ensures SplitColon(JoinColon(parts)) == parts
  {
    forall i | 0 <= i < |parts| {
      NoColonInDigits(parts[i]);
    }
    SplitJoin(parts);
  }

  /** Reading back what `formatTime` prints gives the same number of seconds. */
  lemma FormatTimeRoundTrip(n: nat)
    ensures ParseDuration(Some(FormatTime(n))) == Num(n)
  {
    var h, m, sec := n / 3600, (n % 3600) / 60, n % 60;
    NatToStringValue(h);
    NatToStringValue(m);
    Pad2Value(m);
    Pad2Value(sec);
    HoursMinutesSeconds(n);
    if h > 0 {
      ParseHours(NatToString(h), Pad2(NatToString(m)), Pad2(NatToString(sec)));
    } else {
      ParseMinutes(NatToString(m), Pad2(NatToString(sec)));
    }
  }

  /** Hours, minutes within the hour and seconds within the minute add back up to the whole. */
  lemma HoursMinutesSeconds(n: nat)
    ensures (n / 3600) * 3600 + ((n % 3600) / 60) * 60 + n % 60 == n
  {
    var q, r := n / 3600, n % 3600;
    var m, sec := r / 60, r % 60;
    assert r == m * 60 + sec;
    ModOfSum(n, q * 60 + m, sec);
  }

  lemma ModOfSum(n: nat, a: nat, b: nat)
    requires n == a * 60 + b && b < 60
    ensures n % 60 == b
  {
  }

  // ---------------------------------------------------------------------------
  // The cases of the helpers' unit tests

  lemma ParseDurationEmpty()
    ensures ParseDuration(None) == Num(0)
    ensures ParseDuration(Some("")) == Num(0)
  {
  }

  lemma ParseDurationHoursExample(str: string)
    requires str == "1:30:00"
    ensures ParseDuration(Some(str)) == Num(5400)
  {
    HoursExampleFields();
    ParseHours("1", "30", "00");
  }

  lemma HoursExampleFields()
    ensures JoinColon(["1", "30", "00"]) == "1:30:00"
    ensures DigitsValue("1") == 1 && DigitsValue("30") == 30 && DigitsValue("00") == 0
  {
    assert "30"[..1] == "3";
    assert "00"[..1] == "0";
    assert ["1", "30", "00"][1..] == ["30", "00"];
    assert ["30", "00"][1..] == ["00"];
  }

  lemma ParseDurationMinutesExample(str: string)
    requires str == "45:30"
    ensures ParseDuration(Some(str)) == Num(2730)
  {
    MinutesExampleFields();
    ParseMinutes("45", "30");
  }

  lemma MinutesExampleFields()
    ensures JoinColon(["45", "30"]) == "45:30"
    ensures DigitsValue("45") == 45 && DigitsValue("30") == 30
  {
    assert "45"[..1] == "4";
    assert "30"[..1] == "3";
    assert ["45", "30"][1..] == ["30"];
  }

  lemma ParseDurationSecondsExample()
    ensures ParseDuration(Some("90")) == Num(90)
  {
    assert DigitsValue("90") == 90 by { assert "90"[..1] == "9"; }
    ParseSeconds("90");
  }

  lemma FormatTimeExamples()
    ensures FormatTime(0) == "0:00"
    ensures FormatTime(5) == "0:05"
    ensures FormatTime(65) == "1:05"
  {
    assert ["0", "00"][1..] == ["00"];
    assert ["0", "05"][1..] == ["05"];
    assert ["1", "05"][1..] == ["05"];
  }

  lemma FormatTimeHoursExample(seconds: nat)
    requires seconds == 3661
    ensures FormatTime(seconds) == "1:01:01"
  {
    assert seconds / 3600 == 1 && (seconds % 3600) / 60 == 1 && seconds % 60 == 1;
    HoursFormatFields();
  }

  lemma HoursFormatFields()
    ensures NatToString(1) == "1" && Pad2("1") == "01"
    ensures JoinColon(["1", "01", "01"]) == "1:01:01"
  {
    assert ["1", "01", "01"][1..] == ["01", "01"];
    assert ["01", "01"][1..] == ["01"];
  }
}
