/**
 * `CamelCaseNotation.joined(as: .lowerCamelCase)`, over a name already split into
 * words. The first word is written in lower case and every later word starts
 * with a capital; no character is added, dropped or moved.
 */
module CamelCase {
  import opened Syntax

  function ToLower(c: char): char
  {
    if 'A' <= c <= 'Z' then (c as int + 32) as char else c
  }

  function ToUpper(c: char): char
  {
    if 'a' <= c <= 'z' then (c as int - 32) as char else c
  }

  /** The string with every letter in lower case; two strings that differ only in case fold alike. */
  function Folded(s: string): (r: string)
    ensures |r| == |s|
  {
    seq(|s|, i requires 0 <= i < |s| => ToLower(s[i]))
  }

  function Capitalized(w: string): string
  {
    if w == [] then [] else [ToUpper(w[0])] + w[1..]
  }

  function Concat(ws: seq<string>): string
  {
    if ws == [] then [] else ws[0] + Concat(ws[1..])
  }

  function UpperCamelCase(ws: seq<string>): string
  {
    if ws == [] then [] else Capitalized(ws[0]) + UpperCamelCase(ws[1..])
  }

  function LowerCamelCase(ws: seq<string>): string
  {
    if ws == [] then [] else Folded(ws[0]) + UpperCamelCase(ws[1..])
  }

  lemma FoldedAppend(a: string, b: string)
    ensures Folded(a + b) == Folded(a) + Folded(b)
  {
  }

  lemma FoldedCapitalized(w: string)
    ensures Folded(Capitalized(w)) == Folded(w)
  {
    if w != [] {
      assert Capitalized(w) == [ToUpper(w[0])] + w[1..];
      FoldedAppend([ToUpper(w[0])], w[1..]);
      FoldedAppend([w[0]], w[1..]);
      assert w == [w[0]] + w[1..];
    }
  }

  lemma FoldedFolded(w: string)
    ensures Folded(Folded(w)) == Folded(w)
  {
  }

  lemma {:induction false} UpperCamelCaseFolds(ws: seq<string>)
    ensures Folded(UpperCamelCase(ws)) == Folded(Concat(ws))
  {
    if ws != [] {
      UpperCamelCaseFolds(ws[1..]);
      FoldedAppend(Capitalized(ws[0]), UpperCamelCase(ws[1..]));
      FoldedAppend(ws[0], Concat(ws[1..]));
      FoldedCapitalized(ws[0]);
    }
  }

  /**
   * Joining changes letter case only: the joined name folds to the same string
   * as the words written one after another, so it has their total length.
   */
  lemma JoinedChangesOnlyCase(ws: seq<string>)
    ensures Folded(LowerCamelCase(ws)) == Folded(Concat(ws))
    ensures |LowerCamelCase(ws)| == |Concat(ws)|
  {
    if ws != [] {
      UpperCamelCaseFolds(ws[1..]);
      FoldedAppend(Folded(ws[0]), UpperCamelCase(ws[1..]));
      FoldedAppend(ws[0], Concat(ws[1..]));
      FoldedFolded(ws[0]);
    }
  }

  lemma {:induction false} ConcatOfWordsEmpty(ws: seq<Word>)
    ensures Concat(ws) == [] <==> ws == []
  {
    if ws != [] {
      assert |Concat(ws)| >= |ws[0]| > 0;
    }
  }

  /** Words are never empty, so the joined name is empty exactly when there are no words. */
  lemma JoinedEmptyIffNoWords(ws: seq<Word>)
    ensures LowerCamelCase(ws) == [] <==> ws == []
  {
    JoinedChangesOnlyCase(ws);
    ConcatOfWordsEmpty(ws);
  }

  /** The joined name never starts with a capital letter. */
  lemma JoinedStartsLower(ws: seq<Word>)
    requires ws != []
    ensures LowerCamelCase(ws) != [] && !('A' <= LowerCamelCase(ws)[0] <= 'Z')
  {
    assert LowerCamelCase(ws)[0] == Folded(ws[0])[0];
  }
}
