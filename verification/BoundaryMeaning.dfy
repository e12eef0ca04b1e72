/** What the normalization of a key compares (pmqa/security/boundary_policy.py): the words of the
    key, in lower case, whatever separates them. */
module BoundaryMeaning {
  import opened Boundary

  predicate IsUpperLetter(c: char) {
    'A' <= c <= 'Z'
  }

  /** Letters and digits make words; every other character separates them. */
  predicate InWord(c: char) {
    'a' <= c <= 'z' || IsUpperLetter(c) || '0' <= c <= '9'
  }

  function Lower(c: char): char {
    if IsUpperLetter(c) then "abcdefghijklmnopqrstuvwxyz"[(c - 'A') as int] else c
  }

  /** The maximal words of a key, in lower case and in order. */
  function Words(s: string): (ws: seq<string>)
    ensures forall i :: 0 <= i < |ws| ==> ws[i] != ""
    ensures s != "" && InWord(s[|s| - 1]) ==> ws != []
  {
    if s == "" then []
    else
      var init, c := s[..|s| - 1], s[|s| - 1];
      var ws := Words(init);
      if !InWord(c) then ws
      else if init != "" && InWord(init[|init| - 1]) then ws[..|ws| - 1] + [ws[|ws| - 1] + [Lower(c)]]
      else ws + [[Lower(c)]]
  }

  /** The words with single underscores between them. */
  function Underscored(ws: seq<string>): string {
    if ws == [] then "" else if |ws| == 1 then ws[0]
    else Underscored(ws[..|ws| - 1]) + "_" + ws[|ws| - 1]
  }

  lemma FoldIsLower(c: char)
    ensures IsKeyChar(FoldCase(c)) <==> InWord(c)
    ensures InWord(c) ==> FoldCase(c) == Lower(c) && Lower(c) != '_'
  {
    if IsUpperLetter(c) {
      LetterAt(c);
    }
  }

  lemma LetterAt(c: char)
    requires IsUpperLetter(c)
    ensures "abcdefghijklmnopqrstuvwxyz"[(c - 'A') as int] == c - 'A' + 'a'
  {
    var i := (c - 'A') as int;
    assert 0 <= i < 26;
    assert forall k :: 0 <= k < 26 ==> "abcdefghijklmnopqrstuvwxyz"[k] == 'a' + k as char;
  }

  /** What collecting a key character by character has so far: the words, and an open separator. */
  predicate Pending(s: string) {
    s != "" && !InWord(s[|s| - 1]) && Words(s) != []
  }

  lemma UnderscoredPush(ws: seq<string>, w: string)
    ensures Underscored(ws + [w]) == if ws == [] then w else Underscored(ws) + "_" + w
  {
    assert (ws + [w])[..|ws|] == ws;
  }

  lemma WordExtend(init: seq<string>, w: string, c: char)
    ensures Underscored(init + [w + [c]]) == Underscored(init + [w]) + [c]
  {
    hide Underscored;
    UnderscoredPush(init, w);
    UnderscoredPush(init, w + [c]);
    if init != [] {
      var head, word, one := Underscored(init) + "_", w, [c];
      Regroup(head, word, one);
    }
  }

  lemma UnderscoredExtend(ws: seq<string>, c: char)
    requires ws != []
    ensures Underscored(ws[..|ws| - 1] + [ws[|ws| - 1] + [c]]) == Underscored(ws) + [c]
  {
    hide Underscored;
    WordExtend(ws[..|ws| - 1], ws[|ws| - 1], c);
    assert ws == ws[..|ws| - 1] + [ws[|ws| - 1]];
  }

  lemma Regroup(a: string, b: string, c: string)
    ensures a + (b + c) == a + b + c
  {}

  /** The last character of the joined words is a letter or digit. */
  lemma UnderscoredEnds(ws: seq<string>)
    requires ws != [] && (forall i :: 0 <= i < |ws| ==> ws[i] != "") && IsKeyChar(ws[|ws| - 1][|ws[|ws| - 1]| - 1])
    ensures Underscored(ws) != "" && Underscored(ws)[|Underscored(ws)| - 1] != '_'
  {
    UnderscoredPush(ws[..|ws| - 1], ws[|ws| - 1]);
    assert ws == ws[..|ws| - 1] + [ws[|ws| - 1]];
  }

  lemma {:induction false} WordsEnd(s: string)
    ensures forall i :: 0 <= i < |Words(s)| ==> IsKeyChar(Words(s)[i][|Words(s)[i]| - 1])
  {
    if s != "" {
      WordsEnd(s[..|s| - 1]);
      FoldIsLower(s[|s| - 1]);
      hide Lower;
    }
  }

  lemma {:induction false} CollapseMeans(s: string)
    ensures Collapse(s) == Underscored(Words(s)) + if Pending(s) then "_" else ""
  {
    if s != "" {
      var init, c := s[..|s| - 1], s[|s| - 1];
      CollapseMeans(init);
      FoldIsLower(c);
      WordsEnd(init);
      var ws := Words(init);
      hide Lower, FoldCase, IsKeyChar;
      if ws != [] {
        UnderscoredEndsAgain(init);
      }
      if InWord(c) {
        if init != "" && InWord(init[|init| - 1]) {
          UnderscoredExtend(ws, Lower(c));
        } else {
          UnderscoredPush(ws, [Lower(c)]);
        }
      }
    }
  }

  lemma UnderscoredEndsAgain(s: string)
    requires Words(s) != []
    ensures Underscored(Words(s)) != "" && Underscored(Words(s))[|Underscored(Words(s))| - 1] != '_'
  {
    WordsEnd(s);
    UnderscoredEnds(Words(s));
  }

  /** A key is compared as its lower-case words joined by single underscores: case and separators,
      however many, make no difference. */
  lemma NormalizeMeans(s: string)
    ensures NormalizeKey(s) == Underscored(Words(s))
  {
    CollapseMeans(s);
    hide Collapse, InWord;
    if Words(s) != [] {
      UnderscoredEndsAgain(s);
    }
    hide Words;
  }

  /** So two keys with the same words are prohibited alike. */
  lemma SameWordsAlike(a: string, b: string)
    requires Words(a) == Words(b)
    ensures IsProhibited(a) == IsProhibited(b) && IsProhibitedForReasoning(a) == IsProhibitedForReasoning(b)
  {
    NormalizeMeans(a);
    NormalizeMeans(b);
    hide NormalizeKey;
  }

}
