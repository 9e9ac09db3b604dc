/** What a reader who splits the kernel command line at its spaces finds there, option by option. */
module CommandOptions {
  import opened CommandLine

  /** The pieces between separators; there is always one more than there are separators. */
  function Split(s: string, c: char): (parts: seq<string>)
    ensures parts != []
  {
    if s == [] then [[]] else Ahead(s[0], c, Split(s[1..], c))
  }

  /** One more character in front of the pieces. */
  function Ahead(x: char, c: char, parts: seq<string>): (r: seq<string>)
    requires parts != []
    ensures r != []
  {
    if x == c then [[]] + parts else [[x] + parts[0]] + parts[1..]
  }

  lemma AheadOfBoth(x: char, c: char, a: seq<string>, b: seq<string>)
    requires a != []
    ensures Ahead(x, c, a + b) == Ahead(x, c, a) + b
  {
    assert (a + b)[0] == a[0] && (a + b)[1..] == a[1..] + b;
  }

  lemma {:induction false} SplitNone(s: string, c: char)
    requires c !in s
    ensures Split(s, c) == [s]
  {
    if s != [] {
      SplitNone(s[1..], c);
      assert [s[0]] + s[1..] == s;
    }
  }

  lemma {:induction false} SplitBoth(a: string, c: char, b: string)
    ensures Split(a + [c] + b, c) == Split(a, c) + Split(b, c)
    decreases |a|
  {
    var s := a + [c] + b;
    if a == [] {
      assert s[0] == c && s[1..] == b;
    } else {
      assert s[0] == a[0] && s[1..] == a[1..] + [c] + b;
      SplitBoth(a[1..], c, b);
      AheadOfBoth(a[0], c, Split(a[1..], c), Split(b, c));
    }
  }

  /** Every piece occurs in the text. */
  lemma {:induction false} PieceOccurs(s: string, c: char, i: nat)
    requires i < |Split(s, c)|
    ensures Contains(s, Split(s, c)[i])
    ensures i == 0 ==> Split(s, c)[0] <= s
  {
    if s == [] {
      assert OccursAt(s, 0, []);
    } else {
      var rest := Split(s[1..], c);
      assert s == [s[0]] + s[1..];
      if i == 0 {
        PieceOccurs(s[1..], c, 0);
        assert OccursAt(s, 0, Split(s, c)[0]);
      } else {
        var at := if s[0] == c then i - 1 else i;
        PieceOccurs(s[1..], c, at);
        assert Split(s, c)[i] == rest[at];
        OccursBehind(s[0], s[1..], rest[at]);
      }
    }
  }

  lemma OccursBehind(c: char, s: string, sub: string)
    requires Contains(s, sub)
    ensures Contains([c] + s, sub)
  {
    var i :| 0 <= i <= |s| - |sub| && OccursAt(s, i, sub);
    assert ([c] + s)[i + 1..i + 1 + |sub|] == s[i..i + |sub|];
    assert OccursAt([c] + s, i + 1, sub);
  }

  // ----- The values an option is given

  /** The value a single word gives the option, if any. */
  function ValueOf(word: string, key: string): seq<string> {
    if key + "=" <= word then [word[|key| + 1..]] else []
  }

  function ValuesIn(words: seq<string>, key: string): seq<string> {
    if words == [] then [] else ValueOf(words[0], key) + ValuesIn(words[1..], key)
  }

  /** The values of all `key=value` words of a line, in order. */
  function OptionValues(line: string, key: string): seq<string> {
    ValuesIn(Split(line, ' '), key)
  }

  lemma {:induction false} ValuesInBoth(a: seq<string>, b: seq<string>, key: string)
    ensures ValuesIn(a + b, key) == ValuesIn(a, key) + ValuesIn(b, key)
  {
    if a == [] {
      assert a + b == b;
    } else {
      assert (a + b)[0] == a[0] && (a + b)[1..] == a[1..] + b;
      ValuesInBoth(a[1..], b, key);
      var first := ValueOf(a[0], key);
      assert first + (ValuesIn(a[1..], key) + ValuesIn(b, key)) == first + ValuesIn(a[1..], key) + ValuesIn(b, key);
    }
  }

  lemma OneWord(word: string, key: string)
    requires ' ' !in word
    ensures OptionValues(word, key) == ValueOf(word, key)
  {
    SplitNone(word, ' ');
    assert [word][1..] == [] && ValuesIn([], key) == [];
    assert ValuesIn([word], key) == ValueOf(word, key) + [] == ValueOf(word, key);
  }

  /** Adding a word adds what it says to the end. */
  lemma AddedValues(line: string, word: string, key: string)
    requires ' ' !in word
    ensures OptionValues(AddHint(line, word), key)
         == OptionValues(line, key) + if Contains(line, word) then [] else ValueOf(word, key)
  {
    OneWord(word, key);
    if !Contains(line, word) {
      if line == "" {
        OneWord("", key);
        assert "" + word == word && [] + ValueOf(word, key) == ValueOf(word, key);
      } else {
        SplitBoth(line, ' ', word);
        ValuesInBoth(Split(line, ' '), Split(word, ' '), key);
        assert line + " " + word == line + [' '] + word;
      }
    }
  }

  lemma {:induction false} NoValues(words: seq<string>, key: string)
    requires forall i :: 0 <= i < |words| ==> !(key + "=" <= words[i])
    ensures ValuesIn(words, key) == []
  {
    if words != [] {
      NoValues(words[1..], key);
    }
  }

  /** An option whose key does not occur has no values. */
  lemma AbsentKey(line: string, key: string)
    requires !Contains(line, key)
    ensures OptionValues(line, key) == []
  {
    var words := Split(line, ' ');
    forall i | 0 <= i < |words|
      ensures !(key + "=" <= words[i])
    {
      PieceOccurs(line, ' ', i);
      if key + "=" <= words[i] {
        PrefixOccurs(line, words[i], key);
      }
    }
    NoValues(words, key);
  }

  lemma PrefixOccurs(s: string, word: string, sub: string)
    requires Contains(s, word) && sub <= word
    ensures Contains(s, sub)
  {
    var i :| 0 <= i <= |s| - |word| && OccursAt(s, i, word);
    assert s[i..i + |sub|] == s[i..i + |word|][..|sub|];
    assert OccursAt(s, i, sub);
  }
}
