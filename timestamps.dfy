/**
 * `timestamp_to_file_name` (scrape.py): a slide's `[H:]M:S` timestamp becomes
 * the file name `HH_MM_SS.jpg`.  The code prefixes `0:` so that a missing hour
 * reads as 0, splits at `:`, and formats the last three fields with
 * `'{:02}'`; each field goes through `int()`.
 */
module Timestamps {
  import opened Results
  import opened Strings

  function TimestampToFileName(timestamp: string): Result<string> {
    FileNameOfFields(Split("0:" + timestamp, ":"))
  }

  /** The rest of the function, on the fields of the split: the last three are hours, minutes and seconds. */
  function FileNameOfFields(fields: seq<string>): Result<string> {
    if |fields| < 3 then Err(IndexError)
    else
      var hours := ParseInt(fields[|fields| - 3]);
      var minutes := ParseInt(fields[|fields| - 2]);
      var seconds := ParseInt(fields[|fields| - 1]);
      if hours.Err? then Err(hours.error)
      else if minutes.Err? then Err(minutes.error)
      else if seconds.Err? then Err(seconds.error)
      else Ok(Format02(hours.value) + "_" + Format02(minutes.value) + "_" + Format02(seconds.value) + ".jpg")
  }

  /** The name the function gives to the three field values. */
  function NameOf(h: int, m: int, s: int): string {
    Format02(h) + "_" + Format02(m) + "_" + Format02(s) + ".jpg"
  }

  predicate IsField(s: string) {
    |s| > 0 && AllDigits(s)
  }

  lemma DigitsAvoidColon(s: string)
    requires AllDigits(s)
    ensures ':' !in s
  {
  }

  /** Three colon-free fields joined by `:` split back into those fields. */
  lemma SplitThreeFields(a: string, b: string, c: string)
    requires ':' !in a && ':' !in b && ':' !in c
    ensures Split(a + ":" + b + ":" + c, ":") == [a, b, c]
  {
    assert a + ":" + b + ":" + c == a + [':'] + (b + [':'] + c);
    SplitAtFirst(a, ':', b + [':'] + c);
    SplitAtFirst(b, ':', c);
    SplitWithoutSeparator(c, ':');
  }

  /** When the last three fields of the split are digit strings, the name is made of their values. */
  lemma NameOfLastFields(fields: seq<string>, h: string, m: string, s: string)
    requires IsField(h) && IsField(m) && IsField(s)
    requires |fields| >= 3 && fields[|fields| - 3] == h && fields[|fields| - 2] == m && fields[|fields| - 1] == s
    ensures FileNameOfFields(fields) == Ok(NameOf(DigitsValue(h), DigitsValue(m), DigitsValue(s)))
  {
    assert ParseInt(h) == Ok(DigitsValue(h));
    assert ParseInt(m) == Ok(DigitsValue(m));
    assert ParseInt(s) == Ok(DigitsValue(s));
  }

  /** `M:S`: the hour is 0 and each field is zero-padded, e.g. `5:07` gives `00_05_07.jpg`. */
  lemma MinutesSeconds(m: string, s: string)
    requires IsField(m) && IsField(s)
    ensures TimestampToFileName(m + ":" + s) == Ok(NameOf(0, DigitsValue(m), DigitsValue(s)))
  {
    DigitsAvoidColon(m);
    DigitsAvoidColon(s);
    assert "0:" + (m + ":" + s) == "0" + ":" + m + ":" + s;
    SplitThreeFields("0", m, s);
    assert AllDigits("0") && DigitsValue("0") == 0;
    NameOfLastFields(Split("0:" + (m + ":" + s), ":"), "0", m, s);
  }

  /** `H:M:S`: the three fields, each zero-padded. */
  lemma HoursMinutesSeconds(h: string, m: string, s: string)
    requires IsField(h) && IsField(m) && IsField(s)
    ensures TimestampToFileName(h + ":" + m + ":" + s) ==
            Ok(NameOf(DigitsValue(h), DigitsValue(m), DigitsValue(s)))
  {
    var tail := h + ":" + m + ":" + s;
    assert "0:" + tail == "0" + [':'] + tail;
    SplitAtFirst("0", ':', tail);
    DigitsAvoidColon(h);
    DigitsAvoidColon(m);
    DigitsAvoidColon(s);
    SplitThreeFields(h, m, s);
    NameOfLastFields(Split("0:" + tail, ":"), h, m, s);
  }

  /** A timestamp without any `:` has only two fields after the prefix: IndexError. */
  lemma NoColonIsIndexError(timestamp: string)
    requires ':' !in timestamp
    ensures TimestampToFileName(timestamp) == Err(IndexError)
  {
    assert "0:" + timestamp == "0" + [':'] + timestamp;
    SplitAtFirst("0", ':', timestamp);
    SplitWithoutSeparator(timestamp, ':');
  }

  lemma ExampleFields()
    ensures DigitsValue("5") == 5 && DigitsValue("07") == 7
  {
    assert "5"[..0] == "";
    assert "07"[..1] == "0";
    assert "0"[..0] == "";
  }

  lemma ExampleName()
    ensures NameOf(0, 5, 7) == "00_05_07.jpg"
  {
    assert DigitChar(0) == '0' && DigitChar(5) == '5' && DigitChar(7) == '7';
  }

  /** The worked example: `5:07` names the file `00_05_07.jpg`. */
  lemma Example()
    ensures TimestampToFileName("5:07") == Ok("00_05_07.jpg")
  {
    assert "5:07" == "5" + ":" + "07";
    MinutesSeconds("5", "07");
    ExampleFields();
    ExampleName();
  }

  /** Reads the three fields back out of a `HH_MM_SS.jpg` name. */
  function FieldsOf(name: string): Option<(nat, nat, nat)> {
    if |name| == 12 && name[2] == '_' && name[5] == '_' && name[8..] == ".jpg" &&
       AllDigits(name[..2]) && AllDigits(name[3..5]) && AllDigits(name[6..8])
    then Some((DigitsValue(name[..2]), DigitsValue(name[3..5]), DigitsValue(name[6..8])))
    else None
  }

  /** For fields below 100 the name is twelve characters long and gives the three values back. */
  lemma NameRoundTrip(h: nat, m: nat, s: nat)
    requires h < 100 && m < 100 && s < 100
    ensures FieldsOf(NameOf(h, m, s)) == Some((h, m, s))
  {
    var name := NameOf(h, m, s);
    assert name[..2] == Format02(h);
    assert name[3..5] == Format02(m);
    assert name[6..8] == Format02(s);
  }
}
