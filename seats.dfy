/**
  The seat count of a group purchase: `re.search(r'(\d+)\s*seats?', name)`
  on the lower-cased product name, and the estimate from the order total
  used when the name carries no seat count.

  The regular expression's leftmost match can only start at the first digit
  of a run of digits: `\d+` is greedy, and giving digits back leaves a digit
  where `\s*seat` would have to start. So the search reads the first whole
  run of digits that is followed by optional white space and `seat`.
 */
module Seats {
  import opened Text

  /** The maximal run of digits at the start of `s`. */
  function TakeDigits(s: string): (r: string)
    ensures r <= s && AllDigits(r)
    ensures |r| < |s| ==> !IsDigit(s[|r|])
  {
    if s != [] && IsDigit(s[0]) then [s[0]] + TakeDigits(s[1..]) else []
  }

  /** `\s*seat` matches at the start of `s` (the optional `s` of `seats?` never changes whether it matches). */
  predicate SeatWordFollows(s: string)
  {
    "seat" <= DropSpaces(s)
  }

  /** `int(m.group(1))` of the leftmost match, `None` when there is none; a name without digits never matches. */
  function ExtractSeats(s: string): (r: Option<nat>)
    ensures r.Some? ==> exists i :: 0 <= i < |s| && IsDigit(s[i])
    decreases |s|
  {
    if s == [] then None
    else if IsDigit(s[0]) then
      var run := TakeDigits(s);
      if SeatWordFollows(s[|run|..]) then Some(DigitsValue(run)) else ExtractSeats(s[|run|..])
    else ExtractSeats(s[1..])
  }

  /** The fallback estimate of seats from the order total. */
  function SeatsFromTotal(total: real): (seats: nat)
    ensures seats in {2, 4, 6, 8, 10}
  {
    if total <= 300.0 then 2
    else if total <= 500.0 then 4
    else if total <= 700.0 then 6
    else if total <= 900.0 then 8
    else 10
  }

  /** A larger order is never estimated to have fewer seats. */
  lemma SeatsFromTotalMonotone(a: real, b: real)
    requires a <= b
    ensures SeatsFromTotal(a) <= SeatsFromTotal(b)
  {
  }

  /** `s[i..j]` is a whole run of digits with value `n`, followed by `seat`. */
  ghost predicate ReadsSeatsAt(s: string, i: int, j: int, n: nat)
  {
    && 0 <= i < j <= |s|
    && AllDigits(s[i..j])
    && (i == 0 || !IsDigit(s[i - 1]))
    && DigitsValue(s[i..j]) == n
    && SeatWordFollows(s[j..])
  }

  /** A found seat count is the value of a whole run of digits in the name that is followed by `seat`. */
  lemma {:induction false} ExtractSeatsSound(s: string)
    requires ExtractSeats(s).Some?
    ensures exists i, j :: ReadsSeatsAt(s, i, j, ExtractSeats(s).value)
    decreases |s|
  {
    var n := ExtractSeats(s).value;
    if IsDigit(s[0]) {
      var run := TakeDigits(s);
      if SeatWordFollows(s[|run|..]) {
        assert s[0..|run|] == run;
        assert ReadsSeatsAt(s, 0, |run|, n);
      } else {
        var rest := s[|run|..];
        assert ExtractSeats(s) == ExtractSeats(rest);
        ExtractSeatsSound(rest);
        var i, j :| ReadsSeatsAt(rest, i, j, n);
        ShiftReads(s, |run|, i, j, n);
      }
    } else {
      var rest := s[1..];
      assert ExtractSeats(s) == ExtractSeats(rest);
      ExtractSeatsSound(rest);
      var i, j :| ReadsSeatsAt(rest, i, j, n);
      ShiftReads(s, 1, i, j, n);
    }
  }

  /** A reading found in a suffix is a reading of the whole name, when the suffix does not start inside a run of digits. */
  lemma ShiftReads(s: string, k: int, i: int, j: int, n: nat)
    requires 0 < k <= |s|
    requires !IsDigit(s[k - 1]) || (k < |s| && !IsDigit(s[k]))
    requires ReadsSeatsAt(s[k..], i, j, n)
    ensures ReadsSeatsAt(s, k + i, k + j, n)
  {
    var rest := s[k..];
    var run := rest[i..j];
    assert s[k + i..k + j] == run;
    assert s[k + j..] == rest[j..];
    assert IsDigit(run[0]);
    if i > 0 {
      assert s[k + i - 1] == rest[i - 1];
    } else {
      assert s[k] == run[0];
    }
  }

  /** A run of digits not followed by `seat` is passed over. */
  lemma ExtractSeatsSkipsRun(run: string, rest: string)
    requires run != [] && AllDigits(run)
    requires rest == [] || !IsDigit(rest[0])
    requires !SeatWordFollows(rest)
    ensures ExtractSeats(run + rest) == ExtractSeats(rest)
  {
    TakeDigitsOfRun(run, rest);
    assert (run + rest)[|run|..] == rest;
    assert (run + rest)[0] == run[0];
  }

  lemma {:induction false} TakeDigitsOfRun(run: string, rest: string)
    requires AllDigits(run)
    requires rest == [] || !IsDigit(rest[0])
    ensures TakeDigits(run + rest) == run
  {
    if run != [] {
      assert (run + rest)[1..] == run[1..] + rest;
      TakeDigitsOfRun(run[1..], rest);
    }
  }

  lemma {:induction false} DropSpacesOfSpaces(spaces: string, rest: string)
    requires forall i :: 0 <= i < |spaces| ==> IsSpace(spaces[i])
    requires rest == [] || !IsSpace(rest[0])
    ensures DropSpaces(spaces + rest) == rest
  {
    if spaces != [] {
      assert (spaces + rest)[1..] == spaces[1..] + rest;
      DropSpacesOfSpaces(spaces[1..], rest);
    }
  }

  /** A run of digits followed by `seat` is read. */
  lemma ExtractSeatsReadsRun(run: string, rest: string)
    requires run != [] && AllDigits(run)
    requires rest == [] || !IsDigit(rest[0])
    requires SeatWordFollows(rest)
    ensures ExtractSeats(run + rest) == Some(DigitsValue(run))
  {
    TakeDigitsOfRun(run, rest);
    assert (run + rest)[|run|..] == rest;
    assert (run + rest)[0] == run[0];
  }

  lemma SeatWordAfterSpaces(spaces: string, suffix: string)
    requires forall i :: 0 <= i < |spaces| ==> IsSpace(spaces[i])
    ensures SeatWordFollows(spaces + ("seat" + suffix))
    ensures spaces + ("seat" + suffix) == [] || !IsDigit((spaces + ("seat" + suffix))[0])
  {
    DropSpacesOfSpaces(spaces, "seat" + suffix);
  }

  /** A name like "Latin I 5 seats" yields the number written before the word, whatever precedes it as long as that has no digits. */
  lemma ExtractSeatsOfName(prefix: string, n: nat, width: nat, spaces: string, suffix: string)
    requires forall i :: 0 <= i < |prefix| ==> !IsDigit(prefix[i])
    requires 0 < width && n < Pow10(width)
    requires forall i :: 0 <= i < |spaces| ==> IsSpace(spaces[i])
    ensures ExtractSeats(prefix + PadDigits(n, width) + spaces + "seat" + suffix) == Some(n)
  {
    var digits := PadDigits(n, width);
    var tail := spaces + ("seat" + suffix);
    assert prefix + digits + spaces + "seat" + suffix == prefix + (digits + tail);
    ExtractSeatsPrefix(prefix, digits + tail);
    SeatWordAfterSpaces(spaces, suffix);
    ExtractSeatsReadsRun(digits, tail);
    ValueOfPadDigits(n, width);
  }

  /** Characters before the first digit are skipped. */
  lemma {:induction false} ExtractSeatsPrefix(prefix: string, s: string)
    requires forall i :: 0 <= i < |prefix| ==> !IsDigit(prefix[i])
    ensures ExtractSeats(prefix + s) == ExtractSeats(s)
  {
    if prefix != [] {
      var t := prefix + s;
      assert t[1..] == prefix[1..] + s;
      assert t[0] == prefix[0];
      assert ExtractSeats(t) == ExtractSeats(t[1..]);
      ExtractSeatsPrefix(prefix[1..], s);
    } else {
      assert prefix + s == s;
    }
  }

  /** "latin 2 seats" is read as two seats. */
  lemma ExtractSeatsExample()
    ensures ExtractSeats("latin 2 seats") == Some(2)
  {
    var digits := PadDigits(2, 1);
    assert digits == "2";
    ExtractSeatsOfName("latin ", 2, 1, " ", "s");
    assert "latin " + digits + " " + "seat" + "s" == "latin 2 seats";
  }
}
