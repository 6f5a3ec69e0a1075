/** The string functions of the Go standard library that the modelled code relies on. */
module Text {
  /**
    unicode.ToLower on the characters whose lower case is an ASCII letter; every other
    character stays outside ASCII, so comparisons with ASCII words come out the same.
   */
  function LowerChar(c: char): char {
    if 'A' <= c <= 'Z' then ((c as int) + 32) as char
    else if c == '\U{130}' then 'i'
    else if c == '\U{212A}' then 'k'
    else c
  }

  function ToLower(s: string): (r: string)
    ensures |r| == |s|
  {
    seq(|s|, i requires 0 <= i < |s| => LowerChar(s[i]))
  }

  predicate WordAt(s: string, word: string, i: int) {
    0 <= i <= |s| - |word| && s[i..i + |word|] == word
  }

  predicate Contains(s: string, word: string) {
    exists i | 0 <= i <= |s| - |word| :: WordAt(s, word, i)
  }

  predicate HasPrefix(s: string, prefix: string) {
    prefix <= s
  }

  /** unicode.IsSpace. */
  predicate IsSpace(c: char) {
    || '\t' <= c <= '\r' || c == ' ' || c == '\U{85}' || c == '\U{A0}' || c == '\U{1680}'
    || '\U{2000}' <= c <= '\U{200A}' || c == '\U{2028}' || c == '\U{2029}'
    || c == '\U{202F}' || c == '\U{205F}' || c == '\U{3000}'
  }

  function TrimLeft(s: string): string {
    if s != "" && IsSpace(s[0]) then TrimLeft(s[1..]) else s
  }

  function TrimRight(s: string): string {
    if s != "" && IsSpace(s[|s| - 1]) then TrimRight(s[..|s| - 1]) else s
  }

  function TrimSpace(s: string): string {
    TrimRight(TrimLeft(s))
  }

  /** Nothing to trim. */
  predicate Trimmed(s: string) {
    s == "" || (!IsSpace(s[0]) && !IsSpace(s[|s| - 1]))
  }

  lemma TrimmedFixed(s: string)
    requires Trimmed(s)
    ensures TrimSpace(s) == s
  {
  }

  lemma {:induction false} TrimRightKeeps(s: string)
    requires s != "" && !IsSpace(s[0])
    ensures TrimRight(s) != ""
  {
    if IsSpace(s[|s| - 1]) {
      TrimRightKeeps(s[..|s| - 1]);
    }
  }

  /** A line that starts with a printing character is not blank. */
  lemma NotBlank(s: string)
    requires s != "" && !IsSpace(s[0])
    ensures TrimSpace(s) != ""
  {
    TrimRightKeeps(s);
  }

  /** The single space after a field name is trimmed away, and nothing else is. */
  lemma TrimOneSpace(s: string)
    requires s != "" && Trimmed(s)
    ensures TrimSpace(" " + s) == s
  {
    assert (" " + s)[1..] == s;
    TrimmedFixed(s);
  }

  /** The length of a character in UTF-8. */
  function Width(c: char): nat {
    if c < '\U{80}' then 1 else if c < '\U{800}' then 2 else if c < '\U{10000}' then 3 else 4
  }

  /** The length of a string in bytes, as Go counts it. */
  function ByteLength(s: string): nat {
    if s == "" then 0 else ByteLength(s[..|s| - 1]) + Width(s[|s| - 1])
  }

  lemma {:induction false} ByteLengthAppend(a: string, b: string)
    ensures ByteLength(a + b) == ByteLength(a) + ByteLength(b)
  {
    if b == "" {
      assert a + b == a;
    } else {
      assert (a + b)[..|a + b| - 1] == a + b[..|b| - 1];
      ByteLengthAppend(a, b[..|b| - 1]);
    }
  }

  /** One character, by its code point. */
  lemma OneCharacter(c: char)
    ensures ByteLength([c]) == if c as int < 128 then 1 else if c as int < 2048 then 2 else if c as int < 65536 then 3 else 4
  {
    assert [c][..0] == "";
  }

  lemma {:induction false} ByteLengthAscii(s: string)
    requires forall c | c in s :: c < '\U{80}'
    ensures ByteLength(s) == |s|
  {
    if s != "" {
      var front, last := s[..|s| - 1], s[|s| - 1];
      assert s == front + [last];
      assert last in s && forall c | c in front :: c in s;
      ByteLengthAscii(front);
    }
  }

  // ------------------------------------------------- what the functions come to

  /** White space by code points. */
  lemma SpacesAre(c: char)
    ensures IsSpace(c) <==>
            var n := c as int;
            || n == 9 || n == 10 || n == 11 || n == 12 || n == 13 || n == 32 || n == 133 || n == 160 || n == 5760
            || 8192 <= n <= 8202 || n == 8232 || n == 8233 || n == 8239 || n == 8287 || n == 12288
  {
  }

  ghost predicate AllSpace(s: string) {
    forall c | c in s :: IsSpace(c)
  }

  lemma {:induction false} TrimLeftSplits(s: string)
    ensures exists a :: AllSpace(a) && s == a + TrimLeft(s)
    ensures TrimLeft(s) == "" || !IsSpace(TrimLeft(s)[0])
  {
    if s != "" && IsSpace(s[0]) {
      TrimLeftSplits(s[1..]);
      var a :| AllSpace(a) && s[1..] == a + TrimLeft(s[1..]);
      assert AllSpace([s[0]] + a) && s == [s[0]] + a + TrimLeft(s);
    } else {
      assert AllSpace("") && s == "" + s;
    }
  }

  lemma {:induction false} TrimRightSplits(s: string)
    ensures exists b :: AllSpace(b) && s == TrimRight(s) + b
    ensures TrimRight(s) == "" || !IsSpace(TrimRight(s)[|TrimRight(s)| - 1])
  {
    if s != "" && IsSpace(s[|s| - 1]) {
      var front := s[..|s| - 1];
      TrimRightSplits(front);
      var b :| AllSpace(b) && front == TrimRight(front) + b;
      assert AllSpace(b + [s[|s| - 1]]) && s == TrimRight(s) + (b + [s[|s| - 1]]);
    } else {
      assert AllSpace("") && s == s + "";
    }
  }

  lemma {:induction false} TrimLeftDrops(a: string, s: string)
    requires AllSpace(a)
    ensures TrimLeft(a + s) == TrimLeft(s)
  {
    if a == "" {
      assert a + s == s;
    } else {
      assert (a + s)[1..] == a[1..] + s;
      assert a[0] in a && forall c | c in a[1..] :: c in a;
      TrimLeftDrops(a[1..], s);
    }
  }

  lemma {:induction false} TrimRightDrops(s: string, b: string)
    requires AllSpace(b)
    ensures TrimRight(s + b) == TrimRight(s)
  {
    if b == "" {
      assert s + b == s;
    } else {
      assert (s + b)[..|s + b| - 1] == s + b[..|b| - 1];
      assert b[|b| - 1] in b && forall c | c in b[..|b| - 1] :: c in b;
      TrimRightDrops(s, b[..|b| - 1]);
    }
  }

  /** Trimming takes away white space at both ends, all of it and nothing else. */
  lemma TrimSpaceIs(s: string, t: string)
    ensures TrimSpace(s) == t <==> Trimmed(t) && exists a, b :: AllSpace(a) && AllSpace(b) && s == a + t + b
  {
    TrimLeftSplits(s);
    var a :| AllSpace(a) && s == a + TrimLeft(s);
    TrimRightSplits(TrimLeft(s));
    var b :| AllSpace(b) && TrimLeft(s) == TrimSpace(s) + b;
    assert s == a + TrimSpace(s) + b;
    TrimSpaceTrimmed(s, a, b);
    if Trimmed(t) && exists a, b :: AllSpace(a) && AllSpace(b) && s == a + t + b {
      var a', b' :| AllSpace(a') && AllSpace(b') && s == a' + t + b';
      TrimSpaceOf(a', t, b');
    }
  }

  lemma TrimSpaceTrimmed(s: string, a: string, b: string)
    requires s == a + TrimSpace(s) + b && TrimLeft(s) == TrimSpace(s) + b
    ensures Trimmed(TrimSpace(s))
  {
    TrimLeftSplits(s);
    TrimRightSplits(TrimLeft(s));
  }

  lemma TrimSpaceOf(a: string, t: string, b: string)
    requires AllSpace(a) && AllSpace(b) && Trimmed(t)
    ensures TrimSpace(a + t + b) == t
  {
    assert a + t + b == a + (t + b);
    TrimLeftDrops(a, t + b);
    if t == "" {
      assert t + b == b + "" == b;
      TrimLeftDrops(b, "");
    } else {
      assert TrimLeft(t + b) == t + b;
      TrimRightDrops(t, b);
    }
  }

  /** Nothing is left of white space, and of nothing else. */
  lemma BlankIs(s: string)
    ensures TrimSpace(s) == "" <==> AllSpace(s)
  {
    TrimSpaceIs(s, "");
    assert s == s + "" + "" && AllSpace("");
    if TrimSpace(s) == "" {
      var a, b :| AllSpace(a) && AllSpace(b) && s == a + "" + b;
      assert AllSpace(a + b) && s == a + b;
    }
  }

  /** The character is this small letter, in one of its cases; two characters outside ASCII count as well. */
  predicate Reads(c: char, letter: char) {
    || c == letter
    || ('a' <= letter <= 'z' && c as int == letter as int - 32)
    || (letter == 'i' && c as int == 304)
    || (letter == 'k' && c as int == 8490)
  }

  predicate Small(word: string) {
    forall i | 0 <= i < |word| :: 'a' <= word[i] <= 'z' || word[i] == ' '
  }

  lemma LowerReads(c: char, letter: char)
    requires 'a' <= letter <= 'z' || letter == ' '
    ensures LowerChar(c) == letter <==> Reads(c, letter)
  {
  }

  /** The stretch of `s` at `i` reads as the word, whatever the case. */
  predicate ReadsAt(s: string, word: string, i: nat) {
    i + |word| <= |s| && forall k | 0 <= k < |word| :: Reads(s[i + k], word[k])
  }

  lemma ReadsAtIs(s: string, word: string, i: nat)
    requires Small(word)
    ensures WordAt(ToLower(s), word, i) <==> ReadsAt(s, word, i)
  {
    if i + |word| <= |s| {
      forall k | 0 <= k < |word| {
        LowerReads(s[i + k], word[k]);
      }
      var part := ToLower(s)[i..i + |word|];
      assert forall k | 0 <= k < |word| :: part[k] == LowerChar(s[i + k]);
      assert part == word <==> forall k | 0 <= k < |word| :: part[k] == word[k];
    }
  }

  /** Some stretch of `s` reads as the word. */
  predicate Says(s: string, word: string) {
    exists i: nat | i <= |s| :: ReadsAt(s, word, i)
  }

  lemma SaysIs(s: string, word: string)
    requires Small(word)
    ensures Contains(ToLower(s), word) <==> Says(s, word)
  {
    forall i: nat {
      ReadsAtIs(s, word, i);
    }
    if Contains(ToLower(s), word) {
      var i :| 0 <= i <= |ToLower(s)| - |word| && WordAt(ToLower(s), word, i);
      assert ReadsAt(s, word, i);
    }
    if Says(s, word) {
      var i: nat :| i <= |s| && ReadsAt(s, word, i);
      assert WordAt(ToLower(s), word, i);
    }
  }
}
