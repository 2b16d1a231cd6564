/** Wall-clock times of availability windows. The store keeps a TIME value
    and hands it back as "HH:MM:SS"; the slot engine reads it back with
    split(":").map(Number) into minutes since midnight. */
module Clock {
  import opened Common
  import opened Text

  /** A TIME column value in minutes since midnight ("24:00:00" included). */
  type TimeOfDay = m: int | 0 <= m <= 24 * 60

  /** s.split(":") */
  function Split(s: string): (parts: seq<string>)
    ensures |parts| >= 1
  {
    if s == [] then [""]
    else
      var rest := Split(s[1..]);
      if s[0] == ':' then [""] + rest
      else [[s[0]] + rest[0]] + rest[1..]
  }

  lemma {:induction false} SplitPlain(a: string)
    requires ':' !in a
    ensures Split(a) == [a]
  {
    if a != [] {
      assert ':' !in a[1..] by {
        forall k | 0 <= k < |a[1..]| ensures a[1..][k] != ':' {
          assert a[1..][k] == a[k + 1];
        }
      }
      SplitPlain(a[1..]);
      assert [a[0]] + a[1..] == a;
    }
  }

  lemma {:induction false} SplitJoin(a: string, b: string)
    requires ':' !in a
    ensures Split(a + [':'] + b) == [a] + Split(b)
  {
    var s := a + [':'] + b;
    if a == [] {
      assert s == [':'] + b && s[1..] == b;
    } else {
      assert s[1..] == a[1..] + [':'] + b;
      assert ':' !in a[1..] by {
        forall k | 0 <= k < |a[1..]| ensures a[1..][k] != ':' {
          assert a[1..][k] == a[k + 1];
        }
      }
      SplitJoin(a[1..], b);
      assert [a[0]] + a[1..] == a;
    }
  }

  /** Number() of one piece: a digit string gives its value; anything else is NaN (None). */
  function Number(piece: string): Option<nat> {
    if AllDigits(piece) then Some(DigitsValue(piece)) else None
  }

  /** `const [h, m] = s.split(":").map(Number); h * 60 + m`, None standing for NaN. */
  function ParseClock(s: string): Option<int> {
    var parts := Split(s);
    if |parts| < 2 then None
    else
      match (Number(parts[0]), Number(parts[1]))
      case (Some(h), Some(m)) => Some(h * 60 + m)
      case _ => None
  }

  /** How the store renders a TIME value: "HH:MM:SS". */
  function FormatClock(t: TimeOfDay): string {
    Pad2(t / 60) + ":" + Pad2(t % 60) + ":00"
  }

  /** Reading back what the store renders gives the stored time. */
  lemma ParseFormat(t: TimeOfDay)
    ensures ParseClock(FormatClock(t)) == Some(t)
  {
    var h, m := Pad2(t / 60), Pad2(t % 60);
    assert ':' !in h && ':' !in m && ':' !in "00";
    SplitJoin(m, "00");
    SplitPlain("00");
    assert FormatClock(t) == h + [':'] + (m + [':'] + "00");
    SplitJoin(h, m + [':'] + "00");
    assert Split(FormatClock(t)) == [h, m, "00"];
  }
}
