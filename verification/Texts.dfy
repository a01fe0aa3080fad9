/** The pieces of Rust's string library the parsers lean on. */
module Texts {
  import opened Wrappers

  /** `rsplit_once`: around the last `c`. */
  function RSplitOnce(s: string, c: char): Option<(string, string)> {
    if s == "" then None
    else
      var n := |s| - 1;
      if s[n] == c then Some((s[..n], ""))
      else
        match RSplitOnce(s[..n], c)
        case None => None
        case Some((left, right)) => Some((left, right + [s[n]]))
  }

  /** `split_once`: around the first `c`. */
  function SplitOnce(s: string, c: char): Option<(string, string)> {
    if s == "" then None
    else if s[0] == c then Some(("", s[1..]))
    else
      match SplitOnce(s[1..], c)
      case None => None
      case Some((left, right)) => Some(([s[0]] + left, right))
  }

  lemma {:induction false} RSplitIs(s: string, c: char)
    ensures RSplitOnce(s, c).None? <==> c !in s
    ensures RSplitOnce(s, c).Some? ==>
              var (left, right) := RSplitOnce(s, c).value; s == left + [c] + right && c !in right
  {
    if s != "" {
      RSplitIs(s[..|s| - 1], c);
      assert s == s[..|s| - 1] + [s[|s| - 1]];
    }
  }

  lemma {:induction false} RSplitJoined(left: string, c: char, right: string)
    requires c !in right
    ensures RSplitOnce(left + [c] + right, c) == Some((left, right))
  {
    var s := left + [c] + right;
    var n := |s| - 1;
    if right == "" {
      assert s[..n] == left;
    } else {
      var m := |right| - 1;
      assert s[..n] == left + [c] + right[..m];
      RSplitJoined(left, c, right[..m]);
      assert right == right[..m] + [right[m]];
    }
  }

  lemma {:induction false} SplitIs(s: string, c: char)
    ensures SplitOnce(s, c).None? <==> c !in s
    ensures SplitOnce(s, c).Some? ==>
              var (left, right) := SplitOnce(s, c).value; s == left + [c] + right && c !in left
  {
    if s != "" {
      SplitIs(s[1..], c);
      assert s == [s[0]] + s[1..];
    }
  }

  lemma {:induction false} SplitJoined(left: string, c: char, right: string)
    requires c !in left
    ensures SplitOnce(left + [c] + right, c) == Some((left, right))
  {
    var s := left + [c] + right;
    if left == "" {
      assert s[1..] == right;
    } else {
      assert s[1..] == left[1..] + [c] + right;
      SplitJoined(left[1..], c, right);
      assert left == [left[0]] + left[1..];
    }
  }

  // ---- Decimal numerals ----

  const U32_MAX: nat := 0xFFFF_FFFF

  predicate IsDigit(c: char) { '0' <= c <= '9' }

  function DigitOf(c: char): nat
    requires IsDigit(c)
  {
    c as int - '0' as int
  }

  function Value(digits: string): nat
    requires forall c | c in digits :: IsDigit(c)
  {
    if digits == "" then 0
    else Value(digits[..|digits| - 1]) * 10 + DigitOf(digits[|digits| - 1])
  }

  /** `str::parse::<u32>`: an optional plus, then digits only and at least one, within range. */
  function ParseU32(s: string): Option<nat> {
    var digits := if s != "" && s[0] == '+' then s[1..] else s;
    if digits == "" || (exists c | c in digits :: !IsDigit(c)) then None
    else if Value(digits) > U32_MAX then None
    else Some(Value(digits))
  }

  /** The text writes the number: one digit or more, perhaps behind a plus, in range. */
  ghost predicate Writes(s: string, n: nat) {
    exists digits :: WritesWith(s, digits, n)
  }

  predicate WritesWith(s: string, digits: string, n: nat) {
    && (s == digits || s == ['+'] + digits)
    && digits != "" && (forall c | c in digits :: IsDigit(c))
    && Value(digits) == n < 0x1_0000_0000
  }

  /** A text parses to a number exactly when it writes it. */
  lemma ParsesExactly(s: string, n: nat)
    ensures ParseU32(s) == Some(n) <==> Writes(s, n)
  {
    var bare := if s != "" && s[0] == '+' then s[1..] else s;
    if ParseU32(s) == Some(n) {
      assert WritesWith(s, bare, n);
    }
    if digits :| WritesWith(s, digits, n) {
      assert digits[0] in digits && (['+'] + digits)[1..] == digits;
      assert bare == digits;
    }
  }

  /** The canonical numeral, as `%d` prints it. */
  function Decimal(n: nat): string {
    var last := ['0' + (n % 10) as char];
    if n < 10 then last else Decimal(n / 10) + last
  }

  lemma {:induction false} DecimalValue(n: nat)
    ensures Decimal(n) != "" && forall c | c in Decimal(n) :: IsDigit(c)
    ensures Value(Decimal(n)) == n
  {
    if n >= 10 {
      DecimalValue(n / 10);
      var d := Decimal(n);
      assert d[..|d| - 1] == Decimal(n / 10);
    } else {
      assert Decimal(n)[..0] == "";
    }
  }

  lemma ParseDecimal(n: nat)
    requires n <= U32_MAX
    ensures ParseU32(Decimal(n)) == Some(n)
  {
    DecimalValue(n);
    assert Decimal(n)[0] in Decimal(n);
  }
}
