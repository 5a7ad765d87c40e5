/**
 * The avatar initials in the user menu: the upper-cased first characters of
 * the space-separated words of the user's name, at most two, or "?" when
 * there is no name.
 */
module UserMenu {
  import opened Wrappers
  import Ascii
  import opened Numbers

  /** `s.split(sep)` for a one-character separator: the pieces between separators, empty ones included. */
  function Split(s: string, sep: char): (words: seq<string>)
    ensures |words| >= 1
    ensures forall w :: w in words ==> sep !in w
  {
    if s == [] then [""]
    else
      var rest := Split(s[1..], sep);
      if s[0] == sep then [""] + rest
      else [[s[0]] + rest[0]] + rest[1..]
  }

  /** `words.join(sep)`. */
  function Join(words: seq<string>, sep: char): string
    requires |words| >= 1
  {
    if |words| == 1 then words[0] else words[0] + [sep] + Join(words[1..], sep)
  }

  /** Joining the pieces of a split gives the string back. */
  lemma {:induction false} SplitJoin(s: string, sep: char)
    ensures Join(Split(s, sep), sep) == s
  {
    if s != [] {
      var rest := Split(s[1..], sep);
      SplitJoin(s[1..], sep);
      if s[0] == sep {
        assert s == [sep] + s[1..];
      } else {
        var words := Split(s, sep);
        if |rest| == 1 {
          assert s == [s[0]] + s[1..];
        } else {
          assert words[1..] == rest[1..];
          assert s == [s[0]] + s[1..];
        }
      }
    }
  }

  /** `words.map((n) => n[0]).join("")`: an empty word gives `undefined`, which joins as nothing. */
  function FirstChars(words: seq<string>): (r: string)
    ensures |r| <= |words|
  {
    if words == [] then []
    else (if words[0] == [] then [] else [words[0][0]]) + FirstChars(words[1..])
  }

  /**
   * Reference definition of the initials: every character that is not a
   * space and is at the start of `s` (when `atStart`) or right after a space.
   */
  function WordStarts(s: string, atStart: bool): (r: string)
    ensures ' ' !in r
  {
    if s == [] then []
    else if s[0] == ' ' then WordStarts(s[1..], true)
    else (if atStart then [s[0]] else []) + WordStarts(s[1..], false)
  }

  /** The first characters of the split words are exactly the word starts. */
  lemma {:induction false} FirstCharsAreWordStarts(s: string)
    ensures FirstChars(Split(s, ' ')) == WordStarts(s, true)
    ensures FirstChars(Split(s, ' ')[1..]) == WordStarts(s, false)
  {
    if s != [] {
      FirstCharsAreWordStarts(s[1..]);
      var rest := Split(s[1..], ' ');
      var words := Split(s, ' ');
      if s[0] == ' ' {
        assert words[1..] == rest;
      } else {
        assert words[1..] == rest[1..];
      }
    }
  }

  /** `initials`: the session's user name is `name`; `None` stands for a missing one. */
  function Initials(name: Option<string>): (r: string)
    ensures name.None? || name.value == "" ==> r == "?"
    ensures name.Some? && name.value != "" ==>
      var starts := Ascii.ToUpper(WordStarts(name.value, true));
      r == starts[..Min(|starts|, 2)]
    ensures |r| <= 2
  {
    if name.Some? && name.value != "" then
      FirstCharsAreWordStarts(name.value);
      var letters := Ascii.ToUpper(FirstChars(Split(name.value, ' ')));
      letters[..Min(|letters|, 2)]
    else "?"
  }

  /** A name made only of spaces has no initials at all. */
  lemma {:induction false} SpacesOnly(s: string, atStart: bool)
    requires forall i :: 0 <= i < |s| ==> s[i] == ' '
    ensures WordStarts(s, atStart) == []
  {
    if s != [] {
      SpacesOnly(s[1..], true);
    }
  }

  /** The rest of a word contributes nothing. */
  lemma {:induction false} InsideWord(word: string, rest: string)
    requires ' ' !in word
    ensures WordStarts(word + rest, false) == WordStarts(rest, false)
  {
    if word != [] {
      assert (word + rest)[1..] == word[1..] + rest;
      InsideWord(word[1..], rest);
    } else {
      assert word + rest == rest;
    }
  }

  /** "Ada Lovelace" style: two words give the two upper-cased first letters. */
  lemma TwoWords(first: string, last: string)
    requires first != [] && last != [] && ' ' !in first && ' ' !in last
    ensures Initials(Some(first + " " + last)) == [Ascii.UpperChar(first[0]), Ascii.UpperChar(last[0])]
  {
    var name := first + " " + last;
    assert name[1..] == first[1..] + (" " + last);
    InsideWord(first[1..], " " + last);
    assert (" " + last)[1..] == last;
    assert last == [last[0]] + last[1..];
    InsideWord(last[1..], []);
    assert last[1..] + [] == last[1..];
    assert WordStarts(name, true) == [first[0], last[0]];
  }
}
