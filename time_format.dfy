/**
 Calendar instants and the two `strftime` layouts the application writes:
 `%Y-%m-%dT%H:%M:%S` (followed by `Z` in the registration payload) and
 `%Y%m%d_%H%M%S` (inside photo file names). Each layout comes with the parser
 that inverts it.
 */
module TimeFormat {
  import opened Wrappers
  import opened Digits

  /** The fields of a Python `datetime` down to the second. */
  datatype Fields = Fields(year: int, month: int, day: int, hour: int, minute: int, second: int)
  {
    /** The ranges Python's `datetime` constructor enforces. */
    predicate Valid()
    {
      && 1 <= year <= 9999
      && 1 <= month <= 12
      && 1 <= day <= DaysInMonth(year, month)
      && 0 <= hour < 24
      && 0 <= minute < 60
      && 0 <= second < 60
    }
  }

  predicate IsLeapYear(year: int)
  {
    year % 4 == 0 && (year % 100 != 0 || year % 400 == 0)
  }

  function DaysInMonth(year: int, month: int): int
  {
    if month == 2 then (if IsLeapYear(year) then 29 else 28)
    else if month == 4 || month == 6 || month == 9 || month == 11 then 30
    else 31
  }

  /** A valid instant, as `datetime.now()` returns it. */
  type DateTime = f: Fields | f.Valid() witness Fields(1, 1, 1, 0, 0, 0)

  function Pow10(width: nat): (p: nat)
    ensures p >= 1
  {
    if width == 0 then 1 else 10 * Pow10(width - 1)
  }

  /** `n` written in exactly `width` decimal digits, with leading zeros (`%02d`, `%04d`). */
  function Pad(n: nat, width: nat): (s: string)
    requires n < Pow10(width)
    ensures |s| == width && AllDigits(s)
  {
    if width == 0 then [] else Pad(n / 10, width - 1) + [Digit(n % 10)]
  }

  /** Reading a padded field back gives the number. */
  lemma {:induction false} PadValue(n: nat, width: nat)
    requires n < Pow10(width)
    ensures DecimalValue(Pad(n, width)) == n
  {
    if width > 0 {
      PadValue(n / 10, width - 1);
      var s := Pad(n, width);
      assert s[..|s| - 1] == Pad(n / 10, width - 1);
    }
  }

  /** Every digit string is the padded form of its value. */
  lemma {:induction false} PadOfValue(s: string)
    requires AllDigits(s)
    ensures DecimalValue(s) < Pow10(|s|) && Pad(DecimalValue(s), |s|) == s
  {
    if s != [] {
      var init := s[..|s| - 1];
      assert AllDigits(init);
      PadOfValue(init);
      var d := DigitValue(s[|s| - 1]);
      assert (10 * DecimalValue(init) + d) / 10 == DecimalValue(init);
      assert (10 * DecimalValue(init) + d) % 10 == d;
      assert s == init + [s[|s| - 1]];
    }
  }

  // ---------------------------------------------- three-field groups

  /**
   Three numeric fields joined by `sep`: a field of `width` digits, then two
   two-digit fields. `%Y-%m-%d`, `%H:%M:%S`, `%Y%m%d` and `%H%M%S` are all of
   this shape.
   */
  function Group(a: nat, width: nat, sep: string, b: nat, c: nat): (t: string)
    requires a < Pow10(width) && b < 100 && c < 100
    ensures |t| == width + 2 * |sep| + 4
  {
    Pad(a, width) + sep + Pad(b, 2) + sep + Pad(c, 2)
  }

  /** Recognises exactly the strings `Group` writes for this `width` and `sep`. */
  function ParseGroup(t: string, width: nat, sep: string): Option<(nat, nat, nat)>
  {
    var k := |sep|;
    if |t| == width + 2 * k + 4
    then ParsePieces(t[..width], t[width..width + k], t[width + k..width + k + 2], t[width + k + 2..width + 2 * k + 2],
                     t[width + 2 * k + 2..], sep)
    else None
  }

  /** The three fields, when both separators are `sep` and every field is all digits. */
  function ParsePieces(ta: string, s1: string, tb: string, s2: string, tc: string, sep: string): Option<(nat, nat, nat)>
  {
    if s1 == sep && s2 == sep && AllDigits(ta) && AllDigits(tb) && AllDigits(tc)
    then Some((DecimalValue(ta), DecimalValue(tb), DecimalValue(tc)))
    else None
  }

  lemma {:induction false} GroupRoundTrip(a: nat, width: nat, sep: string, b: nat, c: nat)
    requires a < Pow10(width) && b < 100 && c < 100
    ensures ParseGroup(Group(a, width, sep, b, c), width, sep) == Some((a, b, c))
  {
    var pa, pb, pc := Pad(a, width), Pad(b, 2), Pad(c, 2);
    GroupSlices(pa, sep, pb, pc);
    assert ParseGroup(Group(a, width, sep, b, c), width, sep) == ParsePieces(pa, sep, pb, sep, pc, sep);
    PadValue(a, width);
    PadValue(b, 2);
    PadValue(c, 2);
  }

  /** The five pieces of a group can be cut back out of it. */
  lemma GroupSlices(pa: string, sep: string, pb: string, pc: string)
    requires |pb| == 2 && |pc| == 2
    ensures var t, w, k := pa + sep + pb + sep + pc, |pa|, |sep|;
      && t[..w] == pa && t[w..w + k] == sep && t[w + k..w + k + 2] == pb
      && t[w + k + 2..w + 2 * k + 2] == sep && t[w + 2 * k + 2..] == pc
  {
    var t := pa + sep + pb + sep + pc;
    assert t[..|pa|] == pa by { assert t == pa + (sep + pb + sep + pc); }
    assert t == pa + sep + pb + (sep + pc);
    assert t == (pa + sep + pb) + sep + pc;
  }

  /** A string is the concatenation of its slices at any four cut points. */
  lemma Concat5(t: string, i1: nat, i2: nat, i3: nat, i4: nat)
    requires i1 <= i2 <= i3 <= i4 <= |t|
    ensures t == t[..i1] + t[i1..i2] + t[i2..i3] + t[i3..i4] + t[i4..]
  {
    assert t == t[..i2] + t[i2..];
    assert t[..i2] == t[..i1] + t[i1..i2];
    assert t[i2..] == t[i2..i3] + t[i3..i4] + t[i4..];
  }

  lemma {:induction false} ParsedGroupFormats(t: string, width: nat, sep: string)
    requires ParseGroup(t, width, sep).Some?
    ensures var (a, b, c) := ParseGroup(t, width, sep).value;
      a < Pow10(width) && b < 100 && c < 100 && Group(a, width, sep, b, c) == t
  {
    var k := |sep|;
    var i1, i2, i3, i4 := width, width + k, width + k + 2, width + 2 * k + 2;
    assert |t| == i4 + 2 && t[i1..i2] == sep && t[i3..i4] == sep;
    var ta, tb, tc := t[..i1], t[i2..i3], t[i4..];
    assert AllDigits(ta) && AllDigits(tb) && AllDigits(tc);
    assert ParseGroup(t, width, sep).value == (DecimalValue(ta), DecimalValue(tb), DecimalValue(tc));
    PadOfValue(ta);
    PadOfValue(tb);
    PadOfValue(tc);
    Concat5(t, i1, i2, i3, i4);
  }

  /** The instant with these fields, when they form a valid one. */
  function Assemble(date: (nat, nat, nat), time: (nat, nat, nat)): Option<DateTime>
  {
    var f := Fields(date.0, date.1, date.2, time.0, time.1, time.2);
    if f.Valid() then Some(f) else None
  }

  // ------------------------------------------------ %Y-%m-%dT%H:%M:%S and Z

  /** `dt.strftime("%Y-%m-%dT%H:%M:%S")`. */
  function IsoSeconds(dt: DateTime): (s: string)
    ensures |s| == 19
  {
    Group(dt.year, 4, "-", dt.month, dt.day) + "T" + Group(dt.hour, 2, ":", dt.minute, dt.second)
  }

  /**
   The default `fechaHoraRegistro`: `%Y-%m-%dT%H:%M:%S` followed by `Z`, the
   shape of an RFC 3339 section 5.6 `date-time` without fractional seconds.
   */
  function FechaHora(dt: DateTime): (s: string)
    ensures |s| == 20
    ensures s[4] == '-' && s[7] == '-' && s[10] == 'T' && s[13] == ':' && s[16] == ':' && s[19] == 'Z'
  {
    IsoSeconds(dt) + "Z"
  }

  /** Recognises exactly the strings `FechaHora` writes and recovers the instant. */
  function ParseFechaHora(s: string): Option<DateTime>
  {
    if |s| == 20 && s[10] == 'T' && s[19] == 'Z' then
      match (ParseGroup(s[..10], 4, "-"), ParseGroup(s[11..19], 2, ":"))
      case (Some(date), Some(time)) => Assemble(date, time)
      case _ => None
    else None
  }

  /** Formatting then parsing gives the instant back. */
  lemma {:induction false} FechaHoraRoundTrip(dt: DateTime)
    ensures ParseFechaHora(FechaHora(dt)) == Some(dt)
  {
    var s := FechaHora(dt);
    assert s[..10] == Group(dt.year, 4, "-", dt.month, dt.day);
    assert s[11..19] == Group(dt.hour, 2, ":", dt.minute, dt.second);
    GroupRoundTrip(dt.year, 4, "-", dt.month, dt.day);
    GroupRoundTrip(dt.hour, 2, ":", dt.minute, dt.second);
  }

  /** Parsing then formatting gives the string back: the layout is a bijection. */
  lemma {:induction false} ParsedFechaHoraFormats(s: string)
    requires ParseFechaHora(s).Some?
    ensures FechaHora(ParseFechaHora(s).value) == s
  {
    ParsedGroupFormats(s[..10], 4, "-");
    ParsedGroupFormats(s[11..19], 2, ":");
    assert s == s[..10] + "T" + s[11..19] + "Z";
  }

  // ------------------------------------------------------ %Y%m%d_%H%M%S

  /** `dt.strftime("%Y%m%d_%H%M%S")`. */
  function CompactStamp(dt: DateTime): (s: string)
    ensures |s| == 15 && s[8] == '_'
  {
    Group(dt.year, 4, "", dt.month, dt.day) + "_" + Group(dt.hour, 2, "", dt.minute, dt.second)
  }

  /** Recognises exactly the strings `CompactStamp` writes and recovers the instant. */
  function ParseCompactStamp(s: string): Option<DateTime>
  {
    if |s| == 15 && s[8] == '_' then
      match (ParseGroup(s[..8], 4, ""), ParseGroup(s[9..], 2, ""))
      case (Some(date), Some(time)) => Assemble(date, time)
      case _ => None
    else None
  }

  /** Formatting then parsing gives the instant back. */
  lemma {:induction false} CompactStampRoundTrip(dt: DateTime)
    ensures ParseCompactStamp(CompactStamp(dt)) == Some(dt)
  {
    var s := CompactStamp(dt);
    assert s[..8] == Group(dt.year, 4, "", dt.month, dt.day);
    assert s[9..] == Group(dt.hour, 2, "", dt.minute, dt.second);
    GroupRoundTrip(dt.year, 4, "", dt.month, dt.day);
    GroupRoundTrip(dt.hour, 2, "", dt.minute, dt.second);
  }

  /** Parsing then formatting gives the string back. */
  lemma {:induction false} ParsedCompactStampFormats(s: string)
    requires ParseCompactStamp(s).Some?
    ensures CompactStamp(ParseCompactStamp(s).value) == s
  {
    ParsedGroupFormats(s[..8], 4, "");
    ParsedGroupFormats(s[9..], 2, "");
    assert s == s[..8] + "_" + s[9..];
  }
}
