/** Wall-clock values as the kappa tools format them. The clock itself is not
    modelled: each reading of `datetime.now()` becomes a `DateTime` argument.
    Two formats are used: `%Y%m%d_%H%M%S` in file names and
    `%Y-%m-%d %H:%M:%S` inside the metadata sidecar. */
module Clock {
  import opened Results
  import opened Text

  datatype DateTime = DateTime(year: int, month: int, day: int, hour: int, minute: int, second: int)

  /** Field ranges of a clock reading. Years are limited to four digits, the
      width `%Y` always yields on them; days are not checked against the
      length of their month. */
  predicate Valid(t: DateTime) {
    && 1000 <= t.year <= 9999
    && 1 <= t.month <= 12
    && 1 <= t.day <= 31
    && 0 <= t.hour < 24
    && 0 <= t.minute < 60
    && 0 <= t.second < 60
  }

  /** `n` written with exactly `width` digits, zero-padded on the left. */
  function Padded(n: nat, width: nat): (r: string)
    ensures |r| == width
    ensures AllDigits(r)
  {
    if width == 0 then []
    else Padded(n / 10, width - 1) + [DigitChar(n % 10)]
  }

  /** A zero-padded field reads back as its value when the value fits. */
  lemma {:induction false} PaddedValue(n: nat, width: nat)
    requires n < Power10(width)
    ensures DigitsValue(Padded(n, width)) == n
  {
    if width > 0 {
      var r := Padded(n, width);
      var init := Padded(n / 10, width - 1);
      assert r == init + [DigitChar(n % 10)];
      assert r[..|r| - 1] == init && r[|r| - 1] == DigitChar(n % 10);
      LastDigit(n, Power10(width - 1));
      PaddedValue(n / 10, width - 1);
      assert DigitsValue(r) == 10 * DigitsValue(init) + DigitValue(DigitChar(n % 10));
    }
  }

  /** Dropping the last decimal digit of a number below `10 * p` leaves a
      number below `p`, and the digit and the rest rebuild the number. */
  lemma LastDigit(n: nat, p: nat)
    requires n < 10 * p
    ensures n / 10 < p
    ensures n == 10 * (n / 10) + n % 10 && n % 10 < 10
  {
  }

  function Power10(k: nat): (p: nat)
    ensures p >= 1
  {
    if k == 0 then 1 else 10 * Power10(k - 1)
  }

  /** `strftime("%Y%m%d_%H%M%S")`: fifteen characters, all digits except an
      underscore at index 8. */
  function CompactStamp(t: DateTime): (r: string)
    requires Valid(t)
    ensures |r| == 15
    ensures r[8] == '_'
    ensures AllDigits(r[..8]) && AllDigits(r[9..])
  {
    var r := Padded(t.year, 4) + Padded(t.month, 2) + Padded(t.day, 2) + "_"
      + Padded(t.hour, 2) + Padded(t.minute, 2) + Padded(t.second, 2);
    assert r[..8] == Padded(t.year, 4) + Padded(t.month, 2) + Padded(t.day, 2);
    assert r[9..] == Padded(t.hour, 2) + Padded(t.minute, 2) + Padded(t.second, 2);
    r
  }

  /** `strftime("%Y-%m-%d %H:%M:%S")`: nineteen characters. */
  function HumanStamp(t: DateTime): (r: string)
    requires Valid(t)
    ensures |r| == 19
    ensures r[4] == '-' && r[7] == '-' && r[10] == ' ' && r[13] == ':' && r[16] == ':'
  {
    Padded(t.year, 4) + "-" + Padded(t.month, 2) + "-" + Padded(t.day, 2) + " "
      + Padded(t.hour, 2) + ":" + Padded(t.minute, 2) + ":" + Padded(t.second, 2)
  }

  /** Reads a fifteen-character compact stamp back into its fields. */
  function ParseCompactStamp(s: string): Option<DateTime>
  {
    if |s| == 15 && s[8] == '_' && AllDigits(s[..8]) && AllDigits(s[9..]) then
      var t := DateTime(DigitsValue(s[0..4]), DigitsValue(s[4..6]), DigitsValue(s[6..8]),
                        DigitsValue(s[9..11]), DigitsValue(s[11..13]), DigitsValue(s[13..15]));
      if Valid(t) then Some(t) else None
    else None
  }

  /** A text made of three parts holds each part at its own offsets. */
  lemma ThreeParts(a: string, b: string, c: string)
    ensures var s := a + b + c;
            s[..|a|] == a && s[|a|..|a| + |b|] == b && s[|a| + |b|..] == c
  {
  }

  /** The six fields of a compact stamp, laid out as `%Y%m%d_%H%M%S` lays
      them out, sit at fixed offsets. */
  lemma CompactLayout(y: string, mo: string, d: string, h: string, mi: string, se: string)
    requires |y| == 4 && |mo| == 2 && |d| == 2 && |h| == 2 && |mi| == 2 && |se| == 2
    ensures var s := y + mo + d + "_" + h + mi + se;
            && s[0..4] == y && s[4..6] == mo && s[6..8] == d
            && s[9..11] == h && s[11..13] == mi && s[13..15] == se
  {
    var date, time := y + mo + d, h + mi + se;
    var s := y + mo + d + "_" + h + mi + se;
    assert s == date + "_" + time;
    ThreeParts(date, "_", time);
    ThreeParts(y, mo, d);
    ThreeParts(h, mi, se);
    assert s[0..4] == date[0..4] && s[4..6] == date[4..6] && s[6..8] == date[6..8];
    assert s[9..11] == time[0..2] && s[11..13] == time[2..4] && s[13..15] == time[4..6];
  }

  /** The compact stamp holds each field, zero-padded, at a fixed offset. */
  lemma CompactStampFields(t: DateTime)
    requires Valid(t)
    ensures var s := CompactStamp(t);
            && s[0..4] == Padded(t.year, 4) && s[4..6] == Padded(t.month, 2) && s[6..8] == Padded(t.day, 2)
            && s[9..11] == Padded(t.hour, 2) && s[11..13] == Padded(t.minute, 2) && s[13..15] == Padded(t.second, 2)
  {
    CompactLayout(Padded(t.year, 4), Padded(t.month, 2), Padded(t.day, 2),
                  Padded(t.hour, 2), Padded(t.minute, 2), Padded(t.second, 2));
  }

  /** Three fields joined by one-character separators: each field sits
      at its own offsets. */
  lemma Separated(x: string, sep1: string, y: string, sep2: string, z: string)
    requires |sep1| == 1 && |sep2| == 1
    ensures var s := x + sep1 + y + sep2 + z;
            s[..|x|] == x && s[|x| + 1..|x| + 1 + |y|] == y && s[|x| + |y| + 2..] == z
  {
    var s := x + sep1 + y + sep2 + z;
    assert s == (x + sep1) + y + (sep2 + z);
    ThreeParts(x + sep1, y, sep2 + z);
  }

  /** The six fields of a sidecar stamp, laid out as `%Y-%m-%d %H:%M:%S`
      lays them out, sit at fixed offsets. */
  lemma HumanLayout(y: string, mo: string, d: string, h: string, mi: string, se: string)
    requires |y| == 4 && |mo| == 2 && |d| == 2 && |h| == 2 && |mi| == 2 && |se| == 2
    ensures var r := y + "-" + mo + "-" + d + " " + h + ":" + mi + ":" + se;
            && r[0..4] == y && r[5..7] == mo && r[8..10] == d
            && r[11..13] == h && r[14..16] == mi && r[17..19] == se
  {
    var date, time := y + "-" + mo + "-" + d, h + ":" + mi + ":" + se;
    Separated(y, "-", mo, "-", d);
    Separated(h, ":", mi, ":", se);
    var r := y + "-" + mo + "-" + d + " " + h + ":" + mi + ":" + se;
    assert r == date + " " + time;
    ThreeParts(date, " ", time);
    assert r[0..4] == date[..4];
    assert r[5..7] == date[5..7];
    assert r[8..10] == date[8..];
    assert r[11..13] == time[..2];
    assert r[14..16] == time[3..5];
    assert r[17..19] == time[6..];
  }

  /** The sidecar stamp holds the same zero-padded fields, separated by
      `-`, a space and `:`. */
  lemma HumanStampFields(t: DateTime)
    requires Valid(t)
    ensures var r := HumanStamp(t);
            && r[0..4] == Padded(t.year, 4) && r[5..7] == Padded(t.month, 2) && r[8..10] == Padded(t.day, 2)
            && r[11..13] == Padded(t.hour, 2) && r[14..16] == Padded(t.minute, 2) && r[17..19] == Padded(t.second, 2)
  {
    HumanLayout(Padded(t.year, 4), Padded(t.month, 2), Padded(t.day, 2),
                Padded(t.hour, 2), Padded(t.minute, 2), Padded(t.second, 2));
  }

  /** The sidecar date and the file-name stamp of one reading agree: the
      digits of the one, with its separators replaced by a single `_`
      between date and time, are the other. */
  lemma HumanStampMatchesCompact(t: DateTime)
    requires Valid(t)
    ensures var r := HumanStamp(t);
            r[0..4] + r[5..7] + r[8..10] + "_" + r[11..13] + r[14..16] + r[17..19] == CompactStamp(t)
    ensures var r := HumanStamp(t);
            ParseCompactStamp(r[0..4] + r[5..7] + r[8..10] + "_" + r[11..13] + r[14..16] + r[17..19]) == Some(t)
  {
    HumanStampFields(t);
    CompactStampFields(t);
    StampPieces(CompactStamp(t));
    CompactStampRoundTrip(t);
  }

  /** The compact stamp loses nothing: it reads back as the same reading. */
  lemma CompactStampRoundTrip(t: DateTime)
    requires Valid(t)
    ensures ParseCompactStamp(CompactStamp(t)) == Some(t)
  {
    CompactStampFields(t);
    assert Power10(2) == 100 && Power10(4) == 10000;
    PaddedValue(t.year, 4);
    PaddedValue(t.month, 2);
    PaddedValue(t.day, 2);
    PaddedValue(t.hour, 2);
    PaddedValue(t.minute, 2);
    PaddedValue(t.second, 2);
  }

  /** A run of digits is the zero-padded form of its own value. */
  lemma {:induction false} DigitsPadded(d: string)
    requires AllDigits(d)
    ensures Padded(DigitsValue(d), |d|) == d
  {
    if d != [] {
      var init := d[..|d| - 1];
      var v := DigitsValue(d);
      assert v / 10 == DigitsValue(init) && v % 10 == DigitValue(d[|d| - 1]);
      DigitsPadded(init);
      assert init + [d[|d| - 1]] == d;
    }
  }

  /** Only compact stamps parse: whatever reads as a clock reading is that
      reading's stamp. */
  lemma ParsedStampIsCompact(s: string, t: DateTime)
    requires ParseCompactStamp(s) == Some(t)
    ensures Valid(t) && CompactStamp(t) == s
  {
    ParsedFields(s, t);
    CompactStampFields(t);
    SameFields(CompactStamp(t), s);
  }

  /** Each field of a text that parses as a stamp is the parsed value,
      zero-padded. */
  lemma ParsedFields(s: string, t: DateTime)
    requires ParseCompactStamp(s) == Some(t)
    ensures Valid(t) && |s| == 15 && s[8] == '_'
    ensures Padded(t.year, 4) == s[0..4] && Padded(t.month, 2) == s[4..6] && Padded(t.day, 2) == s[6..8]
    ensures Padded(t.hour, 2) == s[9..11] && Padded(t.minute, 2) == s[11..13] && Padded(t.second, 2) == s[13..15]
  {
    ParsedShape(s, t);
    DigitsPadded(s[0..4]);
    DigitsPadded(s[4..6]);
    DigitsPadded(s[6..8]);
    DigitsPadded(s[9..11]);
    DigitsPadded(s[11..13]);
    DigitsPadded(s[13..15]);
  }

  /** What parsing reads from each field of a stamp. */
  lemma ParsedShape(s: string, t: DateTime)
    requires ParseCompactStamp(s) == Some(t)
    ensures Valid(t) && |s| == 15 && s[8] == '_'
    ensures AllDigits(s[0..4]) && AllDigits(s[4..6]) && AllDigits(s[6..8])
    ensures AllDigits(s[9..11]) && AllDigits(s[11..13]) && AllDigits(s[13..15])
    ensures t == DateTime(DigitsValue(s[0..4]), DigitsValue(s[4..6]), DigitsValue(s[6..8]),
                          DigitsValue(s[9..11]), DigitsValue(s[11..13]), DigitsValue(s[13..15]))
  {
    var date, time := s[..8], s[9..];
    DigitsWithin(date, 0, 4);
    DigitsWithin(date, 4, 6);
    DigitsWithin(date, 6, 8);
    DigitsWithin(time, 0, 2);
    DigitsWithin(time, 2, 4);
    DigitsWithin(time, 4, 6);
    assert date[0..4] == s[0..4] && date[4..6] == s[4..6] && date[6..8] == s[6..8];
    assert time[0..2] == s[9..11] && time[2..4] == s[11..13] && time[4..6] == s[13..15];
  }

  /** Any slice of a run of digits is a run of digits. */
  lemma DigitsWithin(d: string, i: nat, j: nat)
    requires AllDigits(d) && i <= j <= |d|
    ensures AllDigits(d[i..j])
  {
    assert forall k :: 0 <= k < j - i ==> d[i..j][k] == d[i + k];
  }

  /** Two fifteen-character texts with `_` at index 8 and the same six
      fields are the same text. */
  lemma SameFields(a: string, b: string)
    requires |a| == 15 && |b| == 15 && a[8] == '_' && b[8] == '_'
    requires a[0..4] == b[0..4] && a[4..6] == b[4..6] && a[6..8] == b[6..8]
    requires a[9..11] == b[9..11] && a[11..13] == b[11..13] && a[13..15] == b[13..15]
    ensures a == b
  {
    StampPieces(a);
    StampPieces(b);
  }

  /** A fifteen-character text is the concatenation of its stamp fields. */
  lemma StampPieces(s: string)
    requires |s| == 15 && s[8] == '_'
    ensures s == s[0..4] + s[4..6] + s[6..8] + "_" + s[9..11] + s[11..13] + s[13..15]
  {
    assert s[0..8] == s[0..4] + s[4..6] + s[6..8];
    assert s[9..15] == s[9..11] + s[11..13] + s[13..15];
    assert s == s[0..8] + "_" + s[9..15];
  }

  /** Two readings give the same file-name stamp only when they are the same
      second: names collide exactly within one second. */
  lemma CompactStampInjective(t1: DateTime, t2: DateTime)
    requires Valid(t1) && Valid(t2)
    ensures CompactStamp(t1) == CompactStamp(t2) <==> t1 == t2
  {
    CompactStampRoundTrip(t1);
    CompactStampRoundTrip(t2);
  }
}
