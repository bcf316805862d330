/** Retry-After of any length (parseRetryAfter in pkg/ephemeris/gp_fetcher.go; section 10.2.3 of RFC 9110). */
module RetryAfter {
  import opened Prelude

  const MAX_RETRY_AFTER: int := 24 * HOUR

  predicate IsDigit(c: char) {
    '0' <= c <= '9'
  }

  predicate AllDigits(s: string) {
    s != [] && forall i | 0 <= i < |s| :: IsDigit(s[i])
  }

  /** The number a run of digits denotes, without any bound on its length. */
  function Value(s: string): nat
    requires forall i | 0 <= i < |s| :: IsDigit(s[i])
  {
    if s == [] then 0
    else
      assert IsDigit(s[|s| - 1]);
      10 * Value(s[..|s| - 1]) + (s[|s| - 1] as int - '0' as int)
  }

  /** A number written out in decimal. */
  function Decimal(n: nat): string {
    if n < 10 then ["0123456789"[n]] else Decimal(n / 10) + ["0123456789"[n % 10]]
  }

  /** Every number, written out, consists of digits and denotes itself. */
  lemma {:induction false} DecimalDenotesItself(n: nat)
    ensures AllDigits(Decimal(n)) && Value(Decimal(n)) == n
  {
    if n >= 10 {
      DecimalDenotesItself(n / 10);
      assert Decimal(n)[..|Decimal(n)| - 1] == Decimal(n / 10);
    } else {
      assert Decimal(n)[..0] == [];
    }
  }

  method IsAllASCIIDigits(s: string) returns (r: bool)
    ensures r <==> AllDigits(s)
  {
    if s == "" {
      return false;
    }
    for i := 0 to |s|
      invariant forall j | 0 <= j < i :: IsDigit(s[j])
    {
      if s[i] < '0' || s[i] > '9' {
        return false;
      }
    }
    return true;
  }

  datatype Parsed = Parsed(value: nat) | OutOfRange | BadSyntax

  const UINT64_MAX: nat := 0xFFFF_FFFF_FFFF_FFFF

  /** strconv.ParseUint(s, 10, 64), digit by digit with its overflow test before each step. */
  method ParseUint(s: string) returns (r: Parsed)
    ensures r.Parsed? ==> AllDigits(s)
    ensures AllDigits(s) ==> r == if Value(s) <= UINT64_MAX then Parsed(Value(s)) else OutOfRange
  {
    if s == "" {
      return BadSyntax;
    }
    var n: nat := 0;
    for i := 0 to |s|
      invariant forall j | 0 <= j < i :: IsDigit(s[j])
      invariant n == Value(s[..i]) && n <= UINT64_MAX
    {
      if s[i] < '0' || s[i] > '9' {
        return BadSyntax;
      }
      var d := s[i] as int - '0' as int;
      assert s[..i + 1][..i] == s[..i];
      if n >= UINT64_MAX / 10 + 1 || n * 10 + d > UINT64_MAX {
        if AllDigits(s) {
          ValueGrows(s, i + 1);
        }
        return OutOfRange;
      }
      n := n * 10 + d;
    }
    assert s[..|s|] == s;
    return Parsed(n);
  }

  lemma {:induction false} ValueGrows(s: string, k: nat)
    requires AllDigits(s) && k <= |s|
    ensures Value(s[..k]) <= Value(s)
    decreases |s|
  {
    if k < |s| {
      if |s| > 1 {
        assert s[..|s| - 1][..k] == s[..k];
        ValueGrows(s[..|s| - 1], k);
      } else {
        assert s[..k] == [];
      }
    } else {
      assert s[..k] == s;
    }
  }

  function Clamp(d: int): int {
    if d < 0 then 0 else if d > MAX_RETRY_AFTER then MAX_RETRY_AFTER else d
  }

  /**
   `header` is the trimmed header value; `date` is how far ahead http.ParseTime places it, None when it is no date.
   Delay-seconds of any length mean exactly that many seconds, up to a day.
   */
  method ParseRetryAfter(header: string, date: Option<int>) returns (delay: int)
    ensures 0 <= delay <= MAX_RETRY_AFTER
    ensures AllDigits(header) ==> delay == Min(Value(header), 86400) * SECOND
    ensures !AllDigits(header) && header != "" && date.Some? ==> delay == Max(0, Min(date.value, MAX_RETRY_AFTER))
    ensures !AllDigits(header) && (header == "" || date.None?) ==> delay == 0
  {
    if header == "" {
      return 0;
    }
    var digits := IsAllASCIIDigits(header);
    if digits {
      var secs := ParseUint(header);
      if secs == OutOfRange || (secs.Parsed? && secs.value >= MAX_RETRY_AFTER / SECOND) {
        return MAX_RETRY_AFTER;
      }
      if !secs.Parsed? {
        return 0;
      }
      return secs.value * SECOND;
    }
    if date.Some? {
      return Clamp(date.value);
    }
    return 0;
  }
}
