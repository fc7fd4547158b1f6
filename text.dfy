/** The string operations the pages rely on, over ASCII: `toLowerCase`,
    `toUpperCase`, `includes`, `split(" ")`, and the `getInitials` chain built
    from them (src/pages/Users.tsx and src/components/dashboard/RecentActivity.tsx
    carry the same `getInitials`; it is defined once here). */
module Text {
  import opened Collections

  predicate IsUpperAscii(c: char) { 'A' <= c <= 'Z' }
  predicate IsLowerAscii(c: char) { 'a' <= c <= 'z' }

  function LowerChar(c: char): (d: char)
    ensures !IsUpperAscii(d)
    ensures IsUpperAscii(c) ==> IsLowerAscii(d) && d as int == c as int + 32
    ensures !IsUpperAscii(c) ==> d == c
  {
    if IsUpperAscii(c) then (c as int + 32) as char else c
  }

  function UpperChar(c: char): (d: char)
    ensures !IsLowerAscii(d)
    ensures IsLowerAscii(c) ==> IsUpperAscii(d) && d as int == c as int - 32
    ensures !IsLowerAscii(c) ==> d == c
  {
    if IsLowerAscii(c) then (c as int - 32) as char else c
  }

  /** `s.toLowerCase()` restricted to ASCII letters. */
  function ToLower(s: string): (r: string)
    ensures |r| == |s|
    ensures forall i :: 0 <= i < |s| ==> r[i] == LowerChar(s[i])
  {
    seq(|s|, i requires 0 <= i < |s| => LowerChar(s[i]))
  }

  /** `s.toUpperCase()` restricted to ASCII letters. */
  function ToUpper(s: string): (r: string)
    ensures |r| == |s|
    ensures forall i :: 0 <= i < |s| ==> r[i] == UpperChar(s[i])
  {
    seq(|s|, i requires 0 <= i < |s| => UpperChar(s[i]))
  }

  /** Lower-casing twice is lower-casing once, so a term already lower-cased
      searches the same as the term typed. */
  lemma ToLowerIdempotent(s: string)
    ensures ToLower(ToLower(s)) == ToLower(s)
  {
  }

  /** Upper-cased text holds no lower-case ASCII letter. */
  lemma ToUpperHasNoLowercase(s: string)
    ensures forall i :: 0 <= i < |ToUpper(s)| ==> !IsLowerAscii(ToUpper(s)[i])
  {
  }

  /** `needle` occurs in `hay` starting at position `i`. */
  ghost predicate OccursAt(hay: string, needle: string, i: int)
  {
    0 <= i && i + |needle| <= |hay| && hay[i..i + |needle|] == needle
  }

  /** `hay.includes(needle)`: some position of `hay` starts an occurrence of `needle`. */
  function Includes(hay: string, needle: string): (r: bool)
    ensures r <==> exists i :: OccursAt(hay, needle, i)
    ensures needle == "" ==> r
    decreases |hay|
  {
    if |hay| < |needle| then
      assert forall i :: !OccursAt(hay, needle, i);
      false
    else if hay[..|needle|] == needle then
      assert OccursAt(hay, needle, 0);
      true
    else
      var r := Includes(hay[1..], needle);
      assert forall i :: OccursAt(hay[1..], needle, i) ==> OccursAt(hay, needle, i + 1) by {
        forall i | OccursAt(hay[1..], needle, i) ensures OccursAt(hay, needle, i + 1) {
          assert hay[1..][i..i + |needle|] == hay[i + 1..i + 1 + |needle|];
        }
      }
      assert forall i :: OccursAt(hay, needle, i) ==> i > 0 && OccursAt(hay[1..], needle, i - 1) by {
        forall i | OccursAt(hay, needle, i) ensures i > 0 && OccursAt(hay[1..], needle, i - 1) {
          assert i != 0;
          assert hay[1..][i - 1..i - 1 + |needle|] == hay[i..i + |needle|];
        }
      }
      r
  }

  /** `hay.toLowerCase().includes(needle.toLowerCase())`: `needle` occurs in
      `hay` when ASCII case is ignored. */
  function IncludesIgnoringCase(hay: string, needle: string): (r: bool)
    ensures r <==> exists i :: OccursAt(ToLower(hay), ToLower(needle), i)
    ensures needle == "" ==> r
  {
    Includes(ToLower(hay), ToLower(needle))
  }

  /** Every string includes itself. */
  lemma IncludesItself(s: string)
    ensures Includes(s, s)
  {
    assert OccursAt(s, s, 0);
  }

  /** `s.split(" ")`: the maximal runs between single spaces, empty runs included,
      so that "" gives [""] and "a  b" gives ["a", "", "b"]. */
  function Split(s: string): (r: seq<string>)
    ensures |r| >= 1
  {
    if s == [] then [""]
    else if s[0] == ' ' then [""] + Split(s[1..])
    else PrependToFirst(s[0], Split(s[1..]))
  }

  /** Extends the first word by one character at its front. */
  function PrependToFirst(c: char, words: seq<string>): (r: seq<string>)
    requires |words| >= 1
    ensures |r| == |words| && r[0] == [c] + words[0] && r[1..] == words[1..]
  {
    [[c] + words[0]] + words[1..]
  }

  /** `words.join(" ")`. */
  function JoinWithSpaces(words: seq<string>): string
  {
    if words == [] then ""
    else if |words| == 1 then words[0]
    else words[0] + " " + JoinWithSpaces(words[1..])
  }

  /** Splitting loses nothing: joining the pieces back with spaces gives the input. */
  lemma {:induction false} SplitJoinRoundTrip(s: string)
    ensures JoinWithSpaces(Split(s)) == s
  {
    if s != [] {
      var rest := Split(s[1..]);
      SplitJoinRoundTrip(s[1..]);
      assert s == [s[0]] + s[1..];
      if s[0] == ' ' {
        var r := [""] + rest;
        assert Split(s) == r && r[0] == "" && r[1..] == rest;
        calc {
          JoinWithSpaces(r);
          "" + " " + JoinWithSpaces(rest);
          " " + s[1..];
        }
      } else {
        var w := [s[0]] + rest[0];
        var r := [w] + rest[1..];
        assert Split(s) == r && r[0] == w && r[1..] == rest[1..];
        if |rest| == 1 {
          assert JoinWithSpaces(r) == w;
          assert JoinWithSpaces(rest) == rest[0];
        } else {
          var tail := JoinWithSpaces(rest[1..]);
          assert JoinWithSpaces(r) == w + " " + tail;
          assert JoinWithSpaces(rest) == rest[0] + " " + tail;
          AppendAssociative([s[0]], rest[0], " ");
          AppendAssociative([s[0]], rest[0] + " ", tail);
        }
      }
    }
  }

  /** Concatenation regroups freely. */
  lemma AppendAssociative(a: string, b: string, c: string)
    ensures a + b + c == a + (b + c)
  {
  }

  /** No piece of a split holds a space. */
  lemma {:induction false} SplitWordsHaveNoSpaces(s: string)
    ensures forall w :: w in Split(s) ==> ' ' !in w
  {
    if s != [] {
      var rest := Split(s[1..]);
      SplitWordsHaveNoSpaces(s[1..]);
      if s[0] == ' ' {
        assert Split(s) == [""] + rest;
      } else {
        var w := [s[0]] + rest[0];
        assert Split(s) == [w] + rest[1..];
        assert ' ' !in rest[0] by {
          assert rest[0] in rest;
        }
        forall v | v in Split(s)
          ensures ' ' !in v
        {
          if v != w {
            assert v in rest[1..];
            assert v in rest;
          }
        }
      }
    }
  }

  predicate NonEmptyWord(w: string) { w != "" }

  /** `words.map(n => n[0]).join("")`: the first character of every word; an empty
      word's `n[0]` is `undefined`, which `join` renders as nothing. */
  function FirstChars(words: seq<string>): (r: string)
    ensures |r| <= |words|
    ensures (forall w :: w in words ==> w == "") ==> r == ""
    ensures forall c :: c in r ==> exists w :: w in words && w != "" && w[0] == c
  {
    if words == [] then ""
    else
      var head, rest := (if words[0] == "" then "" else [words[0][0]]), FirstChars(words[1..]);
      assert forall c :: c in head + rest ==> c in head || c in rest;
      assert forall w :: w in words[1..] ==> w in words;
      assert words[0] in words;
      head + rest
  }

  /** The characters of `s` that begin a word: not a space, and either first or
      right after a space. `afterSpace` says whether the position before `s`
      ends a word boundary. */
  function WordStartsFrom(s: string, afterSpace: bool): string
  {
    if s == [] then ""
    else (if s[0] != ' ' && afterSpace then [s[0]] else "") + WordStartsFrom(s[1..], s[0] == ' ')
  }

  function WordStarts(s: string): string { WordStartsFrom(s, true) }

  /** The first characters of the split words are exactly the word-start
      characters of the text; after the first word, those of the remaining
      words are the word starts that follow a boundary inside the text. */
  lemma {:induction false} FirstCharsOfSplit(s: string)
    ensures FirstChars(Split(s)) == WordStartsFrom(s, true)
    ensures FirstChars(Split(s)[1..]) == WordStartsFrom(s, false)
  {
    if s != [] {
      var rest := Split(s[1..]);
      FirstCharsOfSplit(s[1..]);
      if s[0] == ' ' {
        assert Split(s) == [""] + rest;
        assert ([""] + rest)[1..] == rest;
      } else {
        var w := [s[0]] + rest[0];
        assert Split(s) == [w] + rest[1..];
        assert ([w] + rest[1..])[1..] == rest[1..];
      }
    }
  }

  /** The first characters, one per non-empty word, in word order. */
  lemma {:induction false} FirstCharsOfNonEmptyWords(words: seq<string>)
    ensures |FirstChars(words)| == |Filter(words, NonEmptyWord)|
    ensures forall i :: 0 <= i < |FirstChars(words)| ==>
      FirstChars(words)[i] == Filter(words, NonEmptyWord)[i][0]
  {
    if words != [] {
      var rest := words[1..];
      FirstCharsOfNonEmptyWords(rest);
      var heads, kept := FirstChars(rest), Filter(rest, NonEmptyWord);
      assert words == [words[0]] + rest;
      if words[0] == "" {
        assert FirstChars(words) == heads;
        assert Filter(words, NonEmptyWord) == kept;
      } else {
        var h, k := [words[0][0]] + heads, [words[0]] + kept;
        assert FirstChars(words) == h;
        assert Filter(words, NonEmptyWord) == k;
        forall i | 0 <= i < |h|
          ensures h[i] == k[i][0]
        {
          if i > 0 {
            assert h[i] == heads[i - 1] && k[i] == kept[i - 1];
          }
        }
      }
    }
  }

  /** `getInitials(name)`: the first letter of each space-separated word, upper-cased. */
  function Initials(name: string): (r: string)
    ensures r == ToUpper(WordStarts(name))
    ensures |r| == |Filter(Split(name), NonEmptyWord)|
    ensures forall i :: 0 <= i < |r| ==>
      r[i] == UpperChar(Filter(Split(name), NonEmptyWord)[i][0])
    ensures forall i :: 0 <= i < |r| ==> !IsLowerAscii(r[i])
  {
    var words := Split(name);
    FirstCharsOfSplit(name);
    FirstCharsOfNonEmptyWords(words);
    var r := ToUpper(FirstChars(words));
    ToUpperHasNoLowercase(FirstChars(words));
    r
  }

  /** Sample users and activity authors get the initials the pages show. */
  lemma InitialsOfMarieDubois()
    ensures Initials("Marie Dubois") == "MD"
  {
    assert WordStarts("Marie Dubois") == "MD" by {
      assert "Marie Dubois" == "Marie" + " " + "Dubois";
      WordStartsOfTwoWords("Marie", "Dubois");
    }
    assert ToUpper("MD") == "MD";
  }

  lemma InitialsOfAdminSystem()
    ensures Initials("Admin System") == "AS"
  {
    assert WordStarts("Admin System") == "AS" by {
      assert "Admin System" == "Admin" + " " + "System";
      WordStartsOfTwoWords("Admin", "System");
    }
    assert ToUpper("AS") == "AS";
  }

  /** Two words of letters joined by one space start with their first letters. */
  lemma WordStartsOfTwoWords(a: string, b: string)
    requires a != [] && b != [] && ' ' !in a && ' ' !in b
    ensures WordStarts(a + " " + b) == [a[0], b[0]]
  {
    assert a[0] in a && b[0] in b;
    assert ' ' !in a[1..] by { assert forall c :: c in a[1..] ==> c in a; }
    assert ' ' !in b[1..] by { assert forall c :: c in b[1..] ==> c in b; }
    NoWordStartsInsideWord(a[1..]);
    NoWordStartsInsideWord(b[1..]);
    var s := a + " " + b;
    assert s[0] == a[0] && s[1..] == a[1..] + (" " + b);
    assert WordStartsFrom(s, true) == [a[0]] + WordStartsFrom(a[1..] + (" " + b), false);
    WordStartsFromAppend(a[1..], " " + b, false);
    assert a[1..] != [] ==> a[1..][|a[1..]| - 1] in a[1..];
    var u := " " + b;
    assert u[0] == ' ' && u[1..] == b;
    assert WordStartsFrom(u, false) == WordStartsFrom(b, true);
    assert WordStartsFrom(b, true) == [b[0]] + WordStartsFrom(b[1..], false);
  }

  lemma {:induction false} NoWordStartsInsideWord(s: string)
    requires ' ' !in s
    ensures WordStartsFrom(s, false) == ""
  {
    if s != [] {
      assert ' ' !in s[1..] by { assert forall c :: c in s[1..] ==> c in s; }
      NoWordStartsInsideWord(s[1..]);
    }
  }

  lemma {:induction false} WordStartsFromAppend(s: string, t: string, afterSpace: bool)
    ensures WordStartsFrom(s + t, afterSpace)
      == WordStartsFrom(s, afterSpace) + WordStartsFrom(t, if s == [] then afterSpace else s[|s| - 1] == ' ')
  {
    if s == [] {
      assert s + t == t;
    } else {
      var u, head := s + t, if s[0] != ' ' && afterSpace then [s[0]] else "";
      assert u[0] == s[0] && u[1..] == s[1..] + t;
      assert WordStartsFrom(u, afterSpace) == head + WordStartsFrom(s[1..] + t, s[0] == ' ');
      assert WordStartsFrom(s, afterSpace) == head + WordStartsFrom(s[1..], s[0] == ' ');
      WordStartsFromAppend(s[1..], t, s[0] == ' ');
      var last := if s[1..] == [] then s[0] == ' ' else s[1..][|s[1..]| - 1] == ' ';
      assert last == (s[|s| - 1] == ' ');
      AppendAssociative(head, WordStartsFrom(s[1..], s[0] == ' '), WordStartsFrom(t, last));
    }
  }

  // ---------------------------------------------------------------------------
  // Numbers as React renders them

  predicate IsDigit(c: char) { '0' <= c <= '9' }

  /** The value of a string of decimal digits. */
  function DigitsValue(s: string): nat
    requires forall i :: 0 <= i < |s| ==> IsDigit(s[i])
  {
    if s == [] then 0
    else
      assert IsDigit(s[|s| - 1]);
      DigitsValue(s[..|s| - 1]) * 10 + (s[|s| - 1] as int - '0' as int)
  }

  /** `String(n)` for a non-negative integer: its shortest decimal digits. */
  function Decimal(n: nat): (r: string)
    ensures |r| >= 1
    ensures forall i :: 0 <= i < |r| ==> IsDigit(r[i])
    ensures DigitsValue(r) == n
    ensures |r| > 1 ==> r[0] != '0'
  {
    var last := [('0' as int + n % 10) as char];
    if n < 10 then last
    else
      var r := Decimal(n / 10) + last;
      assert r[..|r| - 1] == Decimal(n / 10);
      r
  }
}
