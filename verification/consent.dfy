/** What a person typed at the consent prompt. */
module Consent {
  import Peer

  datatype Answer = No | Yes | Always

  /** Unicode's White_Space. */
  predicate Blank(c: char) {
    || '\t' <= c <= '\r' || c == ' ' || c as int == 0x85 || c as int == 0xa0 || c as int == 0x1680
    || 0x2000 <= c as int <= 0x200a || c as int == 0x2028 || c as int == 0x2029 || c as int == 0x202f
    || c as int == 0x205f || c as int == 0x3000
  }

  function TrimStart(s: string): string {
    if s != "" && Blank(s[0]) then TrimStart(s[1..]) else s
  }

  function TrimEnd(s: string): string {
    if s != "" && Blank(s[|s| - 1]) then TrimEnd(s[..|s| - 1]) else s
  }

  function LowerChar(c: char): char {
    if 'A' <= c <= 'Z' then c - 'A' + 'a' else c
  }

  function Lower(s: string): (r: string)
    ensures |r| == |s|
  {
    if s == "" then "" else [LowerChar(s[0])] + Lower(s[1..])
  }

  function FirstLine(s: string): string {
    var lines := Peer.Lines(s);
    if lines == [] then "" else lines[0]
  }

  function Classify(text: string): Answer {
    var word := Lower(TrimEnd(TrimStart(FirstLine(text))));
    if word == "y" || word == "yes" then Yes
    else if word == "a" || word == "always" then Always
    else No
  }

  predicate AllBlank(s: string) {
    forall c :: c in s ==> Blank(c)
  }

  lemma {:induction false} TrimmedWord(before: string, word: string, after: string)
    requires AllBlank(before) && AllBlank(after)
    requires word != "" && !Blank(word[0]) && !Blank(word[|word| - 1])
    ensures TrimEnd(TrimStart(before + word + after)) == word
  {
    if before == "" {
      assert before + word + after == word + after;
      TrimmedAfter(word, after);
    } else {
      var s := before + word + after;
      assert s[1..] == before[1..] + word + after;
      assert forall c :: c in before[1..] ==> c in before;
      TrimmedWord(before[1..], word, after);
    }
  }

  lemma {:induction false} TrimmedAfter(word: string, after: string)
    requires AllBlank(after) && word != "" && !Blank(word[|word| - 1])
    ensures TrimEnd(word + after) == word
  {
    if after == "" {
      assert word + after == word;
    } else {
      var init := after[..|after| - 1];
      assert (word + after)[..|word + after| - 1] == word + init;
      assert forall c :: c in init ==> c in after;
      TrimmedAfter(word, init);
    }
  }

  lemma {:induction false} TrimmedStart(s: string) returns (before: string)
    ensures AllBlank(before) && s == before + TrimStart(s)
    ensures TrimStart(s) != "" ==> !Blank(TrimStart(s)[0])
  {
    if s != "" && Blank(s[0]) {
      var rest := TrimmedStart(s[1..]);
      before := [s[0]] + rest;
      assert s == [s[0]] + s[1..];
      assert before + TrimStart(s) == [s[0]] + (rest + TrimStart(s[1..]));
      assert forall c :: c in before ==> c == s[0] || c in rest;
    } else {
      before := "";
    }
  }

  lemma {:induction false} TrimmedEnd(s: string) returns (after: string)
    ensures AllBlank(after) && s == TrimEnd(s) + after
  {
    if s != "" && Blank(s[|s| - 1]) {
      var rest := TrimmedEnd(s[..|s| - 1]);
      after := rest + [s[|s| - 1]];
      assert s == s[..|s| - 1] + [s[|s| - 1]];
      assert TrimEnd(s) + after == TrimEnd(s[..|s| - 1]) + rest + [s[|s| - 1]];
      assert forall c :: c in after ==> c == s[|s| - 1] || c in rest;
    } else {
      after := "";
    }
  }

  /** These are the blanks, by their code points. */
  lemma BlankExact(c: char)
    ensures Blank(c) <==> c as int in {
      0x9, 0xa, 0xb, 0xc, 0xd, 0x20, 0x85, 0xa0, 0x1680, 0x2000, 0x2001, 0x2002, 0x2003, 0x2004, 0x2005, 0x2006,
      0x2007, 0x2008, 0x2009, 0x200a, 0x2028, 0x2029, 0x202f, 0x205f, 0x3000}
  {
  }

  /** The same word but for capitals, which are 32 places before their small
      letters. */
  ghost predicate SameWord(typed: string, word: string) {
    && |typed| == |word|
    && forall i :: 0 <= i < |word| ==> typed[i] == word[i] || typed[i] as int + 32 == word[i] as int
  }

  lemma LowerSame(typed: string, word: string)
    requires forall c :: c in word ==> Letter(c)
    ensures Lower(typed) == word <==> SameWord(typed, word)
  {
    if |typed| == |word| {
      forall i | 0 <= i < |word|
        ensures Lower(typed)[i] == word[i] <==> typed[i] == word[i] || typed[i] as int + 32 == word[i] as int
      {
        LowerAt(typed, i);
        assert word[i] in word;
      }
    }
  }

  /** The first line is this word, in capitals or not, with nothing but blanks
      around it. */
  ghost predicate Says(text: string, word: string) {
    exists before, typed, after ::
      FirstLine(text) == before + typed + after && AllBlank(before) && AllBlank(after) && SameWord(typed, word)
  }

  /** The first line of a reply is what comes before its first line break, however
      that is written, and nothing at all of an empty one. */
  lemma FirstLineExact(lines: seq<string>, breaks: seq<string>)
    requires Peer.Broken(lines, breaks)
    ensures FirstLine(Peer.Text(lines, breaks)) == if lines == [] then "" else lines[0]
  {
    Peer.LinesReadBack(lines, breaks);
  }

  predicate Letter(c: char) {
    'a' <= c <= 'z'
  }

  lemma LetterNotBlank(c: char)
    requires Letter(LowerChar(c))
    ensures !Blank(c)
  {
  }

  lemma LowerEnds(s: string)
    requires s != "" && Letter(Lower(s)[0]) && Letter(Lower(s)[|s| - 1])
    ensures !Blank(s[0]) && !Blank(s[|s| - 1])
  {
    LowerAt(s, 0);
    LowerAt(s, |s| - 1);
    LetterNotBlank(s[0]);
    LetterNotBlank(s[|s| - 1]);
  }

  lemma {:induction false} LowerAt(s: string, i: nat)
    requires i < |s|
    ensures Lower(s)[i] == LowerChar(s[i])
  {
    if i > 0 {
      LowerAt(s[1..], i - 1);
    }
  }

  lemma SaysMeans(text: string, word: string)
    requires word != "" && forall c :: c in word ==> Letter(c)
    ensures Says(text, word) <==> Lower(TrimEnd(TrimStart(FirstLine(text)))) == word
  {
    var line := FirstLine(text);
    assert word[0] in word && word[|word| - 1] in word;
    LowerSame(TrimEnd(TrimStart(line)), word);
    if Lower(TrimEnd(TrimStart(line))) == word {
      var before := TrimmedStart(line);
      var after := TrimmedEnd(TrimStart(line));
      assert line == before + TrimEnd(TrimStart(line)) + after;
    }
    forall before, typed, after
      | line == before + typed + after && AllBlank(before) && AllBlank(after) && SameWord(typed, word)
      ensures Lower(TrimEnd(TrimStart(line))) == word
    {
      LowerSame(typed, word);
      LowerEnds(typed);
      TrimmedWord(before, typed, after);
    }
  }

  /** Only an explicit yes is a yes and only an explicit always an always;
      everything else, nothing at all included, is a no. */
  lemma ClassifyExact(text: string)
    ensures Classify(text) == Yes <==> Says(text, "y") || Says(text, "yes")
    ensures Classify(text) == Always <==> Says(text, "a") || Says(text, "always")
  {
    SaysMeans(text, "y");
    SaysMeans(text, "yes");
    SaysMeans(text, "a");
    SaysMeans(text, "always");
  }
}
