/**
 * `createUserNames`' string pipeline: the owner's name, lower-cased, split on
 * single spaces, reduced to the first letter of each piece, joined.
 */
module Usernames {
  import opened Arrays

  /** `toLowerCase` on one character, for the ASCII letters. */
  function LowerChar(c: char): char
  {
    if 'A' <= c <= 'Z' then (c as int + 32) as char else c
  }

  /** `s.toLowerCase()`. */
  function Lower(s: string): string
  {
    Map(s, LowerChar)
  }

  /**
   * `toLowerCase` keeps the length, leaves no upper-case ASCII letter, keeps
   * every other character and moves each upper-case letter to its lower-case one.
   */
  lemma LowerLetters(s: string)
    ensures |Lower(s)| == |s|
    ensures forall i :: 0 <= i < |s| ==> !('A' <= Lower(s)[i] <= 'Z')
    ensures forall i :: 0 <= i < |s| && !('A' <= s[i] <= 'Z') ==> Lower(s)[i] == s[i]
    ensures forall i :: 0 <= i < |s| && 'A' <= s[i] <= 'Z' ==> Lower(s)[i] as int == s[i] as int + 32
  {
  }

  /**
   * `s.split(sep)` for a one-character separator: the pieces between
   * consecutive separators, empty pieces included, so there is always one
   * more piece than separators. Joining them back gives the input.
   */
  function Split(s: string, sep: char): (r: seq<string>)
    ensures |r| >= 1
    ensures forall i :: 0 <= i < |r| ==> sep !in r[i]
    ensures Join(r, [sep]) == s
  {
    if s == [] then [""]
    else
      var rest := Split(s[1..], sep);
      if s[0] == sep then
        assert ([""] + rest)[1..] == rest;
        [""] + rest
      else
        var r := [[s[0]] + rest[0]] + rest[1..];
        assert r[1..] == rest[1..];
        r
  }

  /** Splitting the join of separator-free pieces gives the pieces back. */
  lemma {:induction false} SplitJoin(ws: seq<string>, sep: char)
    requires |ws| >= 1
    requires forall i :: 0 <= i < |ws| ==> sep !in ws[i]
    ensures Split(Join(ws, [sep]), sep) == ws
  {
    if |ws| == 1 {
      SplitNoSeparator(ws[0], sep);
    } else {
      SplitJoin(ws[1..], sep);
      SplitAfterPiece(ws[0], Join(ws[1..], [sep]), sep);
      assert ws == [ws[0]] + ws[1..];
    }
  }

  lemma {:induction false} SplitNoSeparator(w: string, sep: char)
    requires sep !in w
    ensures Split(w, sep) == [w]
  {
    if w != [] {
      SplitNoSeparator(w[1..], sep);
      assert w == [w[0]] + w[1..];
    }
  }

  lemma {:induction false} SplitAfterPiece(w: string, t: string, sep: char)
    requires sep !in w
    ensures Split(w + [sep] + t, sep) == [w] + Split(t, sep)
  {
    var s := w + [sep] + t;
    if w == [] {
      assert s[1..] == t;
    } else {
      assert s[1..] == w[1..] + [sep] + t;
      SplitAfterPiece(w[1..], t, sep);
      assert w == [w[0]] + w[1..];
    }
  }

  /** `name => name[0]` followed by `join("")`: an empty piece has no first letter and contributes nothing. */
  function Initial(w: string): (r: string)
    ensures |r| <= 1
    ensures r == "" <==> w == ""
    ensures r != "" ==> r[0] == w[0]
  {
    if w == "" then "" else [w[0]]
  }

  /** The username derived from an owner's full name. */
  function Username(owner: string): string
  {
    Join(Map(Split(Lower(owner), ' '), Initial), "")
  }

  /**
   * The first word of the owner's name, shown in the welcome message: the
   * longest prefix without a space.
   */
  function FirstName(owner: string): (r: string)
    ensures ' ' !in r && r <= owner
    ensures |r| < |owner| ==> owner[|r|] == ' '
  {
    var ws := Split(owner, ' ');
    assert |ws| >= 2 ==> owner == ws[0] + [' '] + Join(ws[1..], [' ']);
    ws[0]
  }

  /**
   * An independent reading of the username: the characters that start a word,
   * that is, every non-space character at the front or right after a space.
   * `afterSpace` says whether the character before `s` was a space (or there
   * was none).
   */
  function WordStarts(s: string, afterSpace: bool): string
  {
    if s == [] then ""
    else (if afterSpace && s[0] != ' ' then [s[0]] else "") + WordStarts(s[1..], s[0] == ' ')
  }

  lemma {:induction false} InitialsAreWordStarts(s: string)
    ensures Join(Map(Split(s, ' '), Initial), "") == WordStarts(s, true)
    ensures Join(Map(Split(s, ' ')[1..], Initial), "") == WordStarts(s, false)
  {
    var r := Split(s, ' ');
    if s == [] {
      assert Map(r[1..], Initial) == [];
    } else {
      InitialsAreWordStarts(s[1..]);
      var rest := Split(s[1..], ' ');
      JoinEmptyIsConcat(Map(r, Initial));
      assert Map(r, Initial)[1..] == Map(r[1..], Initial);
      if s[0] == ' ' {
        assert r[1..] == rest;
      } else {
        assert r[1..] == rest[1..];
        JoinEmptyIsConcat(Map(rest, Initial));
        assert Map(rest, Initial)[1..] == Map(rest[1..], Initial);
      }
    }
  }

  lemma {:induction false} WordStartsLower(s: string, afterSpace: bool)
    ensures WordStarts(Lower(s), afterSpace) == Lower(WordStarts(s, afterSpace))
  {
    if s != [] {
      WordStartsLower(s[1..], s[0] == ' ');
      assert Lower(s)[1..] == Lower(s[1..]);
      var head := if afterSpace && s[0] != ' ' then [s[0]] else "";
      assert Lower(head + WordStarts(s[1..], s[0] == ' ')) == Lower(head) + Lower(WordStarts(s[1..], s[0] == ' '));
    }
  }

  /** The username is the lower-cased first letter of every space-separated word of the owner's name, in order. */
  lemma UsernameIsWordStarts(owner: string)
    ensures Username(owner) == Lower(WordStarts(owner, true))
  {
    InitialsAreWordStarts(Lower(owner));
    WordStartsLower(owner, true);
  }

  lemma {:induction false} LowerJoin(ws: seq<string>, sep: string)
    requires Lower(sep) == sep
    ensures Lower(Join(ws, sep)) == Join(Map(ws, Lower), sep)
  {
    if |ws| >= 2 {
      LowerJoin(ws[1..], sep);
      assert Map(ws, Lower)[1..] == Map(ws[1..], Lower);
      assert Lower(ws[0] + sep + Join(ws[1..], sep)) == Lower(ws[0]) + Lower(sep) + Lower(Join(ws[1..], sep));
    }
  }

  lemma {:induction false} JoinLetters(cs: seq<string>)
    requires forall i :: 0 <= i < |cs| ==> |cs[i]| == 1
    ensures |Join(cs, "")| == |cs|
    ensures forall i :: 0 <= i < |cs| ==> Join(cs, "")[i] == cs[i][0]
  {
    if cs != [] {
      JoinLetters(cs[1..]);
      JoinEmptyIsConcat(cs);
    }
  }

  /**
   * For an owner made of non-empty words separated by single spaces, the
   * username has one letter per word: the lower-cased first letter of that word.
   */
  lemma UsernameOfWords(words: seq<string>)
    requires |words| >= 1
    requires forall i :: 0 <= i < |words| ==> words[i] != "" && ' ' !in words[i]
    ensures |Username(Join(words, " "))| == |words|
    ensures forall i :: 0 <= i < |words| ==> Username(Join(words, " "))[i] == LowerChar(words[i][0])
  {
    var lowered := Map(words, Lower);
    LowerJoin(words, " ");
    forall i | 0 <= i < |lowered| ensures ' ' !in lowered[i] {
      assert forall k :: 0 <= k < |words[i]| ==> lowered[i][k] == LowerChar(words[i][k]);
    }
    SplitJoin(lowered, ' ');
    var letters := Map(lowered, Initial);
    JoinLetters(letters);
  }
}
