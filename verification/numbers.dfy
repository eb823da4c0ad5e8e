/** Rust's `str::parse::<u16>()`, used for the `-q=` / `--quality=` value,
    and the decimal rendering it inverts. */
module Numbers {
  import opened Wrappers
  import opened Media

  predicate IsDigit(c: char)
  {
    '0' <= c <= '9'
  }

  predicate AllDigits(s: string)
  {
    forall i :: 0 <= i < |s| ==> IsDigit(s[i])
  }

  function DigitValue(c: char): nat
    requires IsDigit(c)
  {
    c as int - '0' as int
  }

  function DigitChar(d: nat): (c: char)
    requires d < 10
    ensures IsDigit(c) && DigitValue(c) == d
  {
    ('0' as int + d) as char
  }

  /** The number a run of decimal digits denotes, most significant first. */
  function Value(ds: string): nat
    requires AllDigits(ds)
  {
    if ds == [] then 0
    else Value(ds[..|ds| - 1]) * 10 + DigitValue(ds[|ds| - 1])
  }

  /** `n.to_string()` for a natural number. */
  function Show(n: nat): (s: string)
    ensures s != [] && AllDigits(s)
  {
    if n < 10 then [DigitChar(n)]
    else Show(n / 10) + [DigitChar(n % 10)]
  }

  /** `s.parse::<u16>()`: an optional `+`, then at least one ASCII digit and
      nothing else, denoting a value below 65536; anything else (a `-`, a
      space, an empty string, an overflow) is an error. */
  function ParseU16(s: string): (r: Option<U16>)
    ensures r.Some? ==> exists ds :: (s == ds || s == "+" + ds) && ds != [] && AllDigits(ds) && Value(ds) == r.value
    ensures s != [] && s[0] != '+' && !IsDigit(s[0]) ==> r.None?
    ensures forall ds :: (s == ds || s == "+" + ds) && ds != [] && AllDigits(ds) && Value(ds) < 0x1_0000 ==>
      r == Some(Value(ds))
  {
    var ds := if s != [] && s[0] == '+' then s[1..] else s;
    assert s == ds || s == "+" + ds;
    if ds != [] && AllDigits(ds) && Value(ds) < 0x1_0000 then Some(Value(ds)) else None
  }

  lemma {:induction false} ValueOfShow(n: nat)
    ensures Value(Show(n)) == n
  {
    if n >= 10 {
      var s := Show(n);
      assert s[..|s| - 1] == Show(n / 10);
      ValueOfShow(n / 10);
    }
  }

  /** Parsing undoes rendering, with or without a leading `+`. */
  lemma ParseShow(n: U16)
    ensures ParseU16(Show(n)) == Some(n)
    ensures ParseU16("+" + Show(n)) == Some(n)
  {
    ValueOfShow(n);
    assert ("+" + Show(n))[1..] == Show(n);
  }
}
