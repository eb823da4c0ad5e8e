/** The handful of Rust `str` operations `src/main.rs` relies on, on strings
    modelled as sequences of characters (one byte per character). */
module Text {
  import opened Wrappers

  /** `s.starts_with(p)`. */
  predicate StartsWith(s: string, p: string)
  {
    p <= s
  }

  /** `p` occurs in `s` at position `i`. */
  predicate OccursAt(s: string, p: string, i: int)
  {
    0 <= i && i + |p| <= |s| && s[i..i + |p|] == p
  }

  /** `s.contains(p)`, scanning `s` from the left. */
  predicate Contains(s: string, p: string)
    decreases |s|
  {
    StartsWith(s, p) || (|s| > 0 && Contains(s[1..], p))
  }

  lemma {:induction false} ContainsIff(s: string, p: string)
    ensures Contains(s, p) <==> exists i :: OccursAt(s, p, i)
    decreases |s|
  {
    if StartsWith(s, p) {
      assert s[0..|p|] == p;
      assert OccursAt(s, p, 0);
    } else if Contains(s, p) {
      ContainsIff(s[1..], p);
      var i :| OccursAt(s[1..], p, i);
      assert s[1..][i..i + |p|] == s[i + 1..i + 1 + |p|];
      assert OccursAt(s, p, i + 1);
    }
    forall i | OccursAt(s, p, i) ensures Contains(s, p) {
      OccursContains(s, p, i);
    }
  }

  lemma {:induction false} OccursContains(s: string, p: string, i: int)
    requires OccursAt(s, p, i)
    ensures Contains(s, p)
    decreases i
  {
    if i == 0 {
      assert s[..|p|] == p;
    } else {
      assert s[1..][i - 1..i - 1 + |p|] == s[i..i + |p|];
      OccursContains(s[1..], p, i - 1);
    }
  }

  /** `starts(prefixes, arg)` at src/main.rs:633-635: some entry of the
      table is a prefix of `s` (`prefixes.iter().any(...)`). */
  predicate Starts(prefixes: seq<string>, s: string)
  {
    exists p :: p in prefixes && StartsWith(s, p)
  }

  /** The iteration `prefixes.iter().any(|p| arg.starts_with(p))` performs. */
  method StartsScan(prefixes: seq<string>, s: string) returns (found: bool)
    ensures found <==> Starts(prefixes, s)
    ensures found <==> exists i :: 0 <= i < |prefixes| && StartsWith(s, prefixes[i])
  {
    found := false;
    var i := 0;
    while i < |prefixes|
      invariant 0 <= i <= |prefixes|
      invariant !found
      invariant forall j :: 0 <= j < i ==> !StartsWith(s, prefixes[j])
    {
      if StartsWith(s, prefixes[i]) {
        found := true;
        return;
      }
      i := i + 1;
    }
  }

  /** `p` repeated `n` times. */
  function Repeat(p: string, n: nat): string
  {
    if n == 0 then [] else p + Repeat(p, n - 1)
  }

  /** `s.trim_start_matches(p)`: every leading copy of `p` is removed. */
  function TrimStartMatches(s: string, p: string): (r: string)
    requires p != []
    ensures |r| <= |s|
    ensures !StartsWith(r, p)
    decreases |s|
  {
    if StartsWith(s, p) then TrimStartMatches(s[|p|..], p) else s
  }

  /** What `TrimStartMatches` removes is a run of copies of `p`. */
  lemma {:induction false} TrimStartRemovesCopies(s: string, p: string)
    requires p != []
    ensures exists n :: s == Repeat(p, n) + TrimStartMatches(s, p)
    decreases |s|
  {
    var r := TrimStartMatches(s, p);
    if StartsWith(s, p) {
      TrimStartRemovesCopies(s[|p|..], p);
      var n: nat :| s[|p|..] == Repeat(p, n) + r;
      assert s == p + s[|p|..];
      assert s == Repeat(p, n + 1) + r;
    } else {
      assert s == Repeat(p, 0) + s;
    }
  }

  lemma ConcatAssoc(a: string, b: string, c: string, d: string)
    ensures b + (c + d) == b + c + d
    ensures a + (b + (c + d)) == a + b + c + d
  {
    assert b + (c + d) == b + c + d;
  }

  /** `s.trim_end_matches(c)`: every trailing copy of `c` is removed. */
  function TrimEndMatches(s: string, c: char): (r: string)
    ensures r <= s
    ensures r == [] || r[|r| - 1] != c
    ensures forall i :: |r| <= i < |s| ==> s[i] == c
  {
    if s == [] || s[|s| - 1] != c then s
    else TrimEndMatches(s[..|s| - 1], c)
  }

  /** `s.replace(from, to)` for single characters: no `from` is left, a
      string without `from` is returned as it is, and nothing but `to` is
      added. */
  function Replace(s: string, from: char, to: char): (r: string)
    ensures |r| == |s|
    ensures from != to ==> from !in r
    ensures from !in s ==> r == s
    ensures forall c :: c in r ==> c == to || (c in s && c != from)
    ensures forall c :: c in s && c != from ==> c in r
  {
    var r := seq(|s|, i requires 0 <= i < |s| => if s[i] == from then to else s[i]);
    assert forall i :: 0 <= i < |s| ==> r[i] == (if s[i] == from then to else s[i]);
    r
  }

  /** Index of the first `c` in `s`. */
  function FirstIndex(s: string, c: char): (i: nat)
    requires c in s
    ensures i < |s| && s[i] == c
    ensures c !in s[..i]
  {
    if s[0] == c then 0 else FirstIndex(s[1..], c) + 1
  }

  /** Index of the last `c` in `s`, if any. */
  function LastIndex(s: string, c: char): (r: Option<nat>)
    ensures r.None? <==> c !in s
    ensures r.Some? ==> r.value < |s| && s[r.value] == c && c !in s[r.value + 1..]
  {
    if s == [] then None
    else if s[|s| - 1] == c then Some(|s| - 1)
    else
      var r := LastIndex(s[..|s| - 1], c);
      assert s == s[..|s| - 1] + [s[|s| - 1]];
      r
  }

  /** `s.split_once(c).unwrap().1`: what follows the first `c`. */
  function AfterFirst(s: string, c: char): string
    requires c in s
  {
    s[FirstIndex(s, c) + 1..]
  }

  /** `s.rsplit_once(c).unwrap().1`: what follows the last `c`. */
  function AfterLast(s: string, c: char): string
    requires c in s
  {
    s[LastIndex(s, c).value + 1..]
  }
}
