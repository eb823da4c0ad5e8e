/** The title sanitizer of `src/main.rs`: `remove_multiple_spaces`
    (`split_whitespace` followed by `join(" ")`) and `remove_emojis`, which
    first drops every emoji character and then collapses whitespace. */
module Sanitizer {

  /** Rust's `char::is_whitespace`: the Unicode White_Space property. */
  predicate IsWhitespace(c: char)
  {
    || ('\t' <= c <= '\r')
    || c == ' '
    || c == '\U{0085}'
    || c == '\U{00A0}'
    || c == '\U{1680}'
    || ('\U{2000}' <= c <= '\U{200A}')
    || c == '\U{2028}'
    || c == '\U{2029}'
    || c == '\U{202F}'
    || c == '\U{205F}'
    || c == '\U{3000}'
  }

  /** A piece `split_whitespace` can yield: non-empty, no whitespace. */
  predicate IsWord(w: string)
  {
    w != [] && forall i :: 0 <= i < |w| ==> !IsWhitespace(w[i])
  }

  predicate AllWhitespace(s: string)
  {
    forall i :: 0 <= i < |s| ==> IsWhitespace(s[i])
  }

  /** What `remove_multiple_spaces` produces from a string that is not all
      whitespace: no whitespace at either end, and every whitespace
      character is a single `' '` between two non-whitespace ones. */
  predicate Collapsed(r: string)
  {
    && r != []
    && !IsWhitespace(r[0])
    && !IsWhitespace(r[|r| - 1])
    && (forall i :: 0 <= i < |r| && IsWhitespace(r[i]) ==> r[i] == ' ')
    && (forall i :: 0 <= i < |r| - 1 && IsWhitespace(r[i]) ==> !IsWhitespace(r[i + 1]))
  }

  /** Length of the run of non-whitespace characters that begins `s`. */
  function RunLength(s: string): (n: nat)
    ensures n <= |s|
    ensures forall i :: 0 <= i < n ==> !IsWhitespace(s[i])
    ensures n == |s| || IsWhitespace(s[n])
  {
    if s == [] || IsWhitespace(s[0]) then 0 else 1 + RunLength(s[1..])
  }

  /** `s.split_whitespace()`: the maximal non-whitespace runs, left to right. */
  function Words(s: string): seq<string>
    decreases |s|
  {
    if s == [] then []
    else if IsWhitespace(s[0]) then Words(s[1..])
    else
      var n := RunLength(s);
      [s[..n]] + Words(s[n..])
  }

  /** `words.join(" ")`. */
  function Join(words: seq<string>): string
  {
    if words == [] then []
    else if |words| == 1 then words[0]
    else words[0] + " " + Join(words[1..])
  }

  /** `remove_multiple_spaces` at src/main.rs:655-664: the same words, and
      collapsed unless there are none (an all-whitespace string comes back
      as it was). */
  function RemoveMultipleSpaces(s: string): (r: string)
    ensures Words(r) == Words(s)
    ensures AllWhitespace(s) ==> r == s
    ensures !AllWhitespace(s) ==> Collapsed(r)
    ensures |r| <= |s|
  {
    var words := Words(s);
    WordsEmpty(s);
    if words != [] then
      WordsAreWords(s);
      WordsOfJoin(words);
      JoinCollapsed(words);
      JoinWordsShorter(s);
      Join(words)
    else
      s
  }

  /** `remove_multiple_spaces` adds no character but `' '` and loses no
      character but whitespace. */
  lemma RemoveMultipleSpacesChars(s: string)
    ensures forall c :: c in RemoveMultipleSpaces(s) ==> c == ' ' || c in s
    ensures forall c :: c in s && !IsWhitespace(c) ==> c in RemoveMultipleSpaces(s)
  {
    var words := Words(s);
    if words != [] {
      WordsCover(s);
      JoinCovers(words);
      JoinChars(words);
      WordsChars(s);
    }
  }

  /** `remove_emojis` at src/main.rs:646-653, the emoji regex replaced by
      the predicate `isEmoji`. */
  function RemoveEmojis(s: string, isEmoji: char -> bool): string
  {
    RemoveMultipleSpaces(DropEmojis(s, isEmoji))
  }

  /** What survives `remove_emojis`: the spaces `join` puts between words
      and the characters of the title that are neither emoji nor
      whitespace; all of the latter survive. */
  lemma RemoveEmojisChars(s: string, isEmoji: char -> bool)
    ensures forall c :: c in RemoveEmojis(s, isEmoji) ==> c == ' ' || (c in s && !isEmoji(c))
    ensures forall c :: c in s && !isEmoji(c) && !IsWhitespace(c) ==> c in RemoveEmojis(s, isEmoji)
    ensures !isEmoji(' ') ==> forall c :: c in RemoveEmojis(s, isEmoji) ==> !isEmoji(c)
  {
    RemoveMultipleSpacesChars(DropEmojis(s, isEmoji));
  }

  /** `RE_NO_EMOJI.replace_all(s, "")`: every emoji character removed,
      every other character kept as often as it occurs. */
  function DropEmojis(s: string, isEmoji: char -> bool): (r: string)
    ensures forall c :: c in r ==> c in s && !isEmoji(c)
    ensures forall c :: c in s && !isEmoji(c) ==> c in r
    ensures (forall c :: c in s ==> !isEmoji(c)) ==> r == s
  {
    if s == [] then []
    else
      assert s == [s[0]] + s[1..];
      if isEmoji(s[0]) then DropEmojis(s[1..], isEmoji)
      else [s[0]] + DropEmojis(s[1..], isEmoji)
  }

  /** The replacement works character by character, left to right: it drops
      an emoji, keeps any other character, and distributes over
      concatenation, so the kept characters stay in their order. */
  lemma {:induction false} DropEmojisAppend(a: string, b: string, isEmoji: char -> bool)
    ensures DropEmojis([], isEmoji) == []
    ensures |a| == 1 ==> DropEmojis(a, isEmoji) == if isEmoji(a[0]) then [] else a
    ensures DropEmojis(a + b, isEmoji) == DropEmojis(a, isEmoji) + DropEmojis(b, isEmoji)
    decreases |a|
  {
    if a == [] {
      assert a + b == b;
    } else {
      var c, t := a[0], a[1..];
      var keep := if isEmoji(c) then [] else [c];
      assert a == [c] + t;
      assert a + b == [c] + (t + b);
      DropEmojisCons(c, t + b, isEmoji);
      DropEmojisCons(c, t, isEmoji);
      DropEmojisAppend(t, b, isEmoji);
      Assoc(keep, DropEmojis(t, isEmoji), DropEmojis(b, isEmoji));
    }
  }

  /** No emoji survives, and every other character survives as many times
      as it occurs. */
  lemma {:induction false} DropEmojisCounts(s: string, isEmoji: char -> bool)
    ensures forall c :: multiset(DropEmojis(s, isEmoji))[c] == if isEmoji(c) then 0 else multiset(s)[c]
    decreases |s|
  {
    if s != [] {
      DropEmojisCons(s[0], s[1..], isEmoji);
      DropEmojisCounts(s[1..], isEmoji);
      assert s == [s[0]] + s[1..];
    }
  }

  lemma Assoc(x: string, y: string, z: string)
    ensures x + (y + z) == x + y + z
  {
  }

  lemma DropEmojisCons(c: char, t: string, isEmoji: char -> bool)
    ensures DropEmojis([c] + t, isEmoji) == (if isEmoji(c) then [] else [c]) + DropEmojis(t, isEmoji)
  {
    assert ([c] + t)[0] == c && ([c] + t)[1..] == t;
  }

  // ---------------------------------------------------------------------
  // Lemmas about split_whitespace and join

  lemma {:induction false} WordsAreWords(s: string)
    ensures forall w :: w in Words(s) ==> IsWord(w)
    decreases |s|
  {
    if s == [] {
    } else if IsWhitespace(s[0]) {
      WordsAreWords(s[1..]);
    } else {
      WordsAreWords(s[RunLength(s)..]);
    }
  }

  lemma {:induction false} WordsEmpty(s: string)
    ensures Words(s) == [] <==> AllWhitespace(s)
    decreases |s|
  {
    if s != [] && IsWhitespace(s[0]) {
      WordsEmpty(s[1..]);
      assert AllWhitespace(s) <==> AllWhitespace(s[1..]) by {
        assert forall i :: 0 < i < |s| ==> s[i] == s[1..][i - 1];
      }
    }
  }

  lemma {:induction false} WordsChars(s: string)
    ensures forall w, c :: w in Words(s) && c in w ==> c in s
    decreases |s|
  {
    if s == [] {
    } else if IsWhitespace(s[0]) {
      WordsChars(s[1..]);
    } else {
      var n := RunLength(s);
      WordsChars(s[n..]);
      assert s == s[..n] + s[n..];
    }
  }

  /** Splitting a word followed by nothing or by whitespace yields that word
      first. */
  lemma WordsOfWordThen(w: string, t: string)
    requires IsWord(w)
    requires t == [] || IsWhitespace(t[0])
    ensures Words(w + t) == [w] + Words(t)
  {
    var s := w + t;
    var n := RunLength(s);
    assert forall i :: 0 <= i < |w| ==> s[i] == w[i];
    assert |w| < |s| ==> s[|w|] == t[0];
    assert n == |w|;
    assert s[..n] == w && s[n..] == t;
  }

  /** `split_whitespace` undoes `join(" ")` on whitespace-free words. */
  lemma {:induction false} WordsOfJoin(words: seq<string>)
    requires forall w :: w in words ==> IsWord(w)
    ensures Words(Join(words)) == words
  {
    if words == [] {
    } else if |words| == 1 {
      WordsOfWordThen(words[0], []);
      assert words[0] + [] == words[0];
    } else {
      var rest := Join(words[1..]);
      WordsOfJoin(words[1..]);
      WordsOfWordThen(words[0], " " + rest);
      assert (" " + rest)[1..] == rest;
      assert words[0] + " " + rest == words[0] + (" " + rest);
    }
  }

  lemma {:induction false} JoinCollapsed(words: seq<string>)
    requires words != []
    requires forall w :: w in words ==> IsWord(w)
    ensures Collapsed(Join(words))
  {
    assert words[0] in words;
    if |words| > 1 {
      JoinCollapsed(words[1..]);
      CollapsedCons(words[0], Join(words[1..]));
    }
  }

  /** A word, one space and a collapsed string make a collapsed string. */
  lemma CollapsedCons(w: string, rest: string)
    requires IsWord(w) && Collapsed(rest)
    ensures Collapsed(w + " " + rest)
  {
    var r := w + " " + rest;
    var k := |w|;
    assert forall i :: 0 <= i < k ==> r[i] == w[i];
    assert r[k] == ' ';
    assert forall i :: k < i < |r| ==> r[i] == rest[i - k - 1];
    forall i | 0 <= i < |r| && IsWhitespace(r[i])
      ensures r[i] == ' '
    {
      if i > k {
        assert r[i] == rest[i - k - 1];
      }
    }
    forall i | 0 <= i < |r| - 1 && IsWhitespace(r[i])
      ensures !IsWhitespace(r[i + 1])
    {
      if i > k {
        assert r[i] == rest[i - k - 1] && r[i + 1] == rest[i - k];
      }
    }
  }

  lemma {:induction false} JoinChars(words: seq<string>)
    ensures forall c :: c in Join(words) ==> c == ' ' || exists w :: w in words && c in w
  {
    if |words| > 1 {
      JoinChars(words[1..]);
      forall c | c in Join(words)
        ensures c == ' ' || exists w :: w in words && c in w
      {
        if c in words[0] {
        } else if c != ' ' {
          assert c in Join(words[1..]);
        }
      }
    }
  }

  /** Every non-whitespace character of `s` lies in one of its words. */
  lemma {:induction false} WordsCover(s: string)
    ensures forall c :: c in s && !IsWhitespace(c) ==> exists w :: w in Words(s) && c in w
    decreases |s|
  {
    if s == [] {
    } else if IsWhitespace(s[0]) {
      WordsCover(s[1..]);
      assert forall c :: c in s && c != s[0] ==> c in s[1..];
    } else {
      var n := RunLength(s);
      WordsCover(s[n..]);
      assert s == s[..n] + s[n..];
      assert s[..n] in Words(s);
    }
  }

  /** Every character of every word survives the join. */
  lemma {:induction false} JoinCovers(words: seq<string>)
    ensures forall w, c :: w in words && c in w ==> c in Join(words)
  {
    if |words| > 1 {
      JoinCovers(words[1..]);
      forall w, c | w in words && c in w ensures c in Join(words) {
        if w != words[0] {
          assert w in words[1..];
        }
      }
    }
  }

  /** The joined words are no longer than the string they were split from;
      when that string begins with whitespace and has a word, strictly
      shorter. */
  lemma {:induction false} JoinWordsShorter(s: string)
    ensures |Join(Words(s))| <= |s|
    ensures s != [] && IsWhitespace(s[0]) && Words(s) != [] ==> |Join(Words(s))| < |s|
    decreases |s|
  {
    if s == [] {
    } else if IsWhitespace(s[0]) {
      JoinWordsShorter(s[1..]);
    } else {
      var n := RunLength(s);
      var t := s[n..];
      JoinWordsShorter(t);
      if Words(t) != [] {
        assert Join(Words(s)) == s[..n] + " " + Join(Words(t));
      }
    }
  }

  /** After the first word of a collapsed string that goes on come one
      space and another collapsed string. */
  lemma CollapsedTail(r: string)
    requires Collapsed(r) && RunLength(r) < |r|
    ensures var n := RunLength(r); n > 0 && n + 1 < |r| && r[n] == ' ' && Collapsed(r[n + 1..])
  {
    var n := RunLength(r);
    assert IsWhitespace(r[n]);
    assert n > 0 && n + 1 < |r| && r[n] == ' ';
    CollapsedAfterSpace(r, n + 1);
  }

  /** What follows a whitespace character of a collapsed string is
      collapsed. */
  lemma CollapsedAfterSpace(r: string, k: int)
    requires Collapsed(r) && 0 < k < |r| && IsWhitespace(r[k - 1])
    ensures Collapsed(r[k..])
  {
    var t := r[k..];
    assert forall i :: 0 <= i < |t| ==> t[i] == r[k + i];
    assert !IsWhitespace(t[0]) && !IsWhitespace(t[|t| - 1]);
  }

  /** Splitting a collapsed string yields its first word, then the words of
      what follows the space after it. */
  lemma WordsOfCollapsed(r: string)
    requires Collapsed(r) && RunLength(r) < |r|
    ensures var n := RunLength(r); Words(r) == [r[..n]] + Words(r[n + 1..]) && Words(r[n + 1..]) != []
  {
    var n := RunLength(r);
    CollapsedTail(r);
    var t := r[n + 1..];
    assert r[n..][1..] == t;
    assert Words(r[n..]) == Words(t);
    WordsEmpty(t);
  }

  lemma JoinCons(w: string, ws: seq<string>)
    requires ws != []
    ensures Join([w] + ws) == w + " " + Join(ws)
  {
    assert ([w] + ws)[1..] == ws;
  }

  /** A collapsed string is exactly its words joined by single spaces. */
  lemma {:induction false} JoinOfCollapsed(r: string)
    requires Collapsed(r)
    ensures Join(Words(r)) == r
    decreases |r|
  {
    var n := RunLength(r);
    if n < |r| {
      CollapsedTail(r);
      WordsOfCollapsed(r);
      var t := r[n + 1..];
      JoinOfCollapsed(t);
      SplitAtSpace(r, n);
      JoinStep(r, r[..n], t, Words(t));
    } else {
      assert IsWord(r);
      WordsOfWordThen(r, []);
      assert r + [] == r;
    }
  }

  lemma SplitAtSpace(r: string, n: nat)
    requires n < |r| && r[n] == ' '
    ensures r == r[..n] + " " + r[n + 1..]
  {
  }

  lemma JoinStep(r: string, w: string, t: string, ws: seq<string>)
    requires Words(r) == [w] + ws && ws != [] && Join(ws) == t && r == w + " " + t
    ensures Join(Words(r)) == r
  {
    JoinCons(w, ws);
  }

  // ---------------------------------------------------------------------
  // The sanitizer's promises

  /** A collapsed title passes through `remove_multiple_spaces` unchanged. */
  lemma CollapsedIsFixed(r: string)
    requires Collapsed(r)
    ensures RemoveMultipleSpaces(r) == r
  {
    WordsEmpty(r);
    JoinOfCollapsed(r);
  }

  lemma RemoveMultipleSpacesIdempotent(s: string)
    ensures RemoveMultipleSpaces(RemoveMultipleSpaces(s)) == RemoveMultipleSpaces(s)
  {
    if !AllWhitespace(s) {
      CollapsedIsFixed(RemoveMultipleSpaces(s));
    }
  }

  /** Stripping emojis is idempotent as long as the space `join` inserts is
      not itself an emoji. */
  lemma RemoveEmojisIdempotent(s: string, isEmoji: char -> bool)
    requires !isEmoji(' ')
    ensures RemoveEmojis(RemoveEmojis(s, isEmoji), isEmoji) == RemoveEmojis(s, isEmoji)
  {
    var r := RemoveEmojis(s, isEmoji);
    RemoveEmojisChars(s, isEmoji);
    assert DropEmojis(r, isEmoji) == r;
    RemoveMultipleSpacesIdempotent(DropEmojis(s, isEmoji));
  }
}
