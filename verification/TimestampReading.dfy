/** What a stored RFC 3339 text says when its numerals are read back
    (crates/rustykrab-memory/src/storage.rs writes it with chrono's `to_rfc3339`). */
module TimestampReading {
  import opened Decimals
  import opened Timestamps

  /** `s` writes `n` with exactly `width` decimal digits. */
  predicate Writes(s: string, n: nat, width: nat) {
    |s| == width && AllDigits(s) && Value(s) == n
  }

  lemma {:induction false} DigitsWrite(n: nat, width: nat)
    requires n < Pow10(width)
    ensures Writes(Digits(n, width), n, width)
  {
    if width > 0 {
      DigitsWrite(n / 10, width - 1);
      var s := Digits(n, width);
      assert s[..width - 1] == Digits(n / 10, width - 1);
    }
  }

  lemma {:induction false} Powers()
    ensures Pow10(0) == 1 && Pow10(2) == 100 && Pow10(3) == 1_000 && Pow10(4) == 10_000
    ensures Pow10(6) == 1_000_000 && Pow10(9) == 1_000_000_000
  {
    assert Pow10(5) == 10 * Pow10(4) && Pow10(6) == 10 * Pow10(5);
    assert Pow10(7) == 10 * Pow10(6) && Pow10(8) == 10 * Pow10(7) && Pow10(9) == 10 * Pow10(8);
  }

  /** The parts of a text: the numerals of the date and the time of day, and the digits of the fraction. */
  datatype Parts = Parts(year: string, month: string, day: string, hour: string, minute: string, second: string,
    fraction: string)

  function TextOf(p: Parts): string {
    p.year + ("-" + (p.month + ("-" + (p.day + ("T" + (p.hour + (":" + (p.minute + (":" + p.second)))))))))
    + ((if p.fraction == "" then "" else "." + p.fraction) + "+00:00")
  }

  /** The parts write the date and time; the fraction has no, three, six or nine digits, no group of
      three fewer than the nanoseconds need. */
  ghost predicate Says(p: Parts, c: Civil) {
    && Writes(p.year, c.year, 4) && Writes(p.month, c.month, 2) && Writes(p.day, c.day, 2)
    && Writes(p.hour, c.hour, 2) && Writes(p.minute, c.minute, 2) && Writes(p.second, c.second, 2)
    && SaysNanos(p.fraction, c.nano)
  }

  ghost predicate SaysNanos(fraction: string, nano: nat) {
    || (nano == 0 && fraction == "")
    || (nano % 1_000_000 == 0 && nano != 0 && Writes(fraction, nano / 1_000_000, 3))
    || (nano % 1_000_000 != 0 && nano % 1_000 == 0 && Writes(fraction, nano / 1_000, 6))
    || (nano % 1_000 != 0 && Writes(fraction, nano, 9))
  }

  lemma {:induction false} FractionSays(nano: nat) returns (fraction: string)
    requires nano < SECOND
    ensures SaysNanos(fraction, nano)
    ensures Fraction(nano) == if fraction == "" then "" else "." + fraction
  {
    Powers();
    if nano == 0 {
      fraction := "";
    } else if nano % 1_000_000 == 0 {
      fraction := Digits(nano / 1_000_000, 3);
      DigitsWrite(nano / 1_000_000, 3);
    } else if nano % 1_000 == 0 {
      fraction := Digits(nano / 1_000, 6);
      DigitsWrite(nano / 1_000, 6);
    } else {
      fraction := Digits(nano, 9);
      DigitsWrite(nano, 9);
    }
  }

  lemma {:induction false} ClockSpelled(h: nat, i: nat, s: nat)
    ensures FieldsText([h, i, s], [2, 2, 2], "::") == Digits(h, 2) + (":" + (Digits(i, 2) + (":" + Digits(s, 2))))
  {
    FieldsFirst(h, [i, s], 2, [2, 2], ":", ":");
    FieldsFirst(i, [s], 2, [2], ":", "");
    assert [h] + [i, s] == [h, i, s] && [i] + [s] == [i, s];
    assert [2] + [2, 2] == [2, 2, 2] && [2] + [2] == [2, 2] && ":" + ":" == "::" && ":" + "" == ":";
  }

  lemma {:induction false} FieldsSpelled(y: nat, m: nat, d: nat, clock: seq<nat>)
    requires |clock| == 3
    ensures FieldsText([y, m, d] + clock, WIDTHS, MARKS)
      == Digits(y, 4) + ("-" + (Digits(m, 2) + ("-" + (Digits(d, 2) + ("T" + FieldsText(clock, [2, 2, 2], "::"))))))
  {
    FieldsFirst(y, [m, d] + clock, 4, [2, 2, 2, 2, 2], "-", "-T::");
    FieldsFirst(m, [d] + clock, 2, [2, 2, 2, 2], "-", "T::");
    FieldsFirst(d, clock, 2, [2, 2, 2], "T", "::");
    assert [y] + ([m, d] + clock) == [y, m, d] + clock && [m] + ([d] + clock) == [m, d] + clock;
    assert [4] + [2, 2, 2, 2, 2] == WIDTHS && [2] + [2, 2, 2, 2] == [2, 2, 2, 2, 2] && [2] + [2, 2, 2] == [2, 2, 2, 2];
    assert "-" + "-T::" == MARKS && "-" + "T::" == "-T::" && "T" + "::" == "T::";
  }

  lemma {:induction false} FieldsFirst(x: nat, more: seq<nat>, width: nat, widths: seq<nat>, mark: string, marks: string)
    requires |mark| == 1 && |more| == |widths| == |marks| + 1
    ensures FieldsText([x] + more, [width] + widths, mark + marks)
      == Digits(x, width) + (mark + FieldsText(more, widths, marks))
  {
    assert ([x] + more)[1..] == more && ([width] + widths)[1..] == widths && (mark + marks)[1..] == marks;
    assert [(mark + marks)[0]] == mark;
    var a, b := Digits(x, width), FieldsText(more, widths, marks);
    assert a + mark + b == a + (mark + b);
  }

  /** The text stored for an instant, read back as numerals, says the instant. */
  lemma {:induction false} StoredTextSays(t: Instant) returns (p: Parts)
    requires InRange(t)
    ensures Rfc3339(t) == TextOf(p) && Says(p, CivilOf(t)) && CivilOf(t).Valid() && CivilOf(t).Instant() == t
  {
    CivilOfIs(t);
    p := PrintSays(CivilOf(t));
  }

  lemma {:induction false} PrintSays(c: Civil) returns (p: Parts)
    requires c.Valid()
    ensures Print(c) == TextOf(p) && Says(p, c)
  {
    Powers();
    DigitsWrite(c.year, 4);
    DigitsWrite(c.month, 2);
    DigitsWrite(c.day, 2);
    DigitsWrite(c.hour, 2);
    DigitsWrite(c.minute, 2);
    DigitsWrite(c.second, 2);
    var clock := [c.hour, c.minute, c.second];
    FieldsSpelled(c.year, c.month, c.day, clock);
    ClockSpelled(c.hour, c.minute, c.second);
    assert Fields(c) == [c.year, c.month, c.day] + clock;
    var fraction := FractionSays(c.nano);
    p := Parts(Digits(c.year, 4), Digits(c.month, 2), Digits(c.day, 2), Digits(c.hour, 2), Digits(c.minute, 2),
      Digits(c.second, 2), fraction);
  }
}
