/** Product search helpers of sklad/views.py: transliterate_to_cyrillic,
    which rewrites Latin spelling into Cyrillic by a greedy longest-match
    table, and is_latin, which tells whether a text holds a Latin letter. */
module Transliteration {

  import opened Models

  // ---------------------------------------------------------------- lower case

  /** str.lower on the characters the search deals with: ASCII capitals and
      the capitals of the basic Cyrillic block (U+0400..U+042F). */
  function LowerChar(c: char): (r: char)
    ensures 'A' <= c <= 'Z' ==> r as int == c as int + 32
    ensures '\U{0410}' <= c <= '\U{042F}' ==> r as int == c as int + 32
    ensures '\U{0400}' <= c <= '\U{040F}' ==> r as int == c as int + 80
    ensures !('A' <= c <= 'Z' || '\U{0400}' <= c <= '\U{042F}') ==> r == c
  {
    if 'A' <= c <= 'Z' then (c as int + 32) as char
    else if '\U{0410}' <= c <= '\U{042F}' then (c as int + 32) as char
    else if '\U{0400}' <= c <= '\U{040F}' then (c as int + 80) as char
    else c
  }

  function Lower(s: string): (r: string)
    ensures |r| == |s|
    ensures forall i :: 0 <= i < |s| ==> r[i] == LowerChar(s[i])
  {
    seq(|s|, i requires 0 <= i < |s| => LowerChar(s[i]))
  }

  /** A lower-cased character has no capital left to lower. */
  lemma LowerIdempotent(s: string)
    ensures Lower(Lower(s)) == Lower(s)
  {
    forall i | 0 <= i < |s| ensures LowerChar(LowerChar(s[i])) == LowerChar(s[i]) {
    }
  }

  // ---------------------------------------------------------------- the table

  predicate IsLatinLetter(c: char)
  {
    'a' <= c <= 'z'
  }

  /** LATIN_TO_CYRILLIC, looked up as the dictionary would be: the
      Cyrillic spelling of a key, None for anything that is not a key. The
      keys are every Latin letter, the digraphs yo, zh, kh, ts, ch, sh, the
      trigraph sch and the tetragraph shch; no spelling holds a Latin letter
      or a capital. */
  function Cyrillic(k: string): (r: Option<string>)
    ensures r.Some? ==> 1 <= |k| <= 4 && forall j :: 0 <= j < |k| ==> IsLatinLetter(k[j])
    ensures |k| == 1 && IsLatinLetter(k[0]) ==> r.Some?
    ensures r.Some? ==> r.value != [] && forall j :: 0 <= j < |r.value| ==>
              !IsLatinLetter(r.value[j]) && LowerChar(r.value[j]) == r.value[j]
  {
    if |k| == 1 then Letter(k[0])
    else if |k| == 2 then Digraph(k[0], k[1])
    else if k == "sch" || k == "shch" then Some("щ")
    else None
  }

  function Letter(c: char): Option<string>
  {
    match c
    case 'a' => Some("а") case 'b' => Some("б") case 'v' => Some("в")
    case 'g' => Some("г") case 'd' => Some("д") case 'e' => Some("е")
    case 'z' => Some("з") case 'i' => Some("и") case 'y' => Some("й")
    case 'k' => Some("к") case 'l' => Some("л") case 'm' => Some("м")
    case 'n' => Some("н") case 'o' => Some("о") case 'p' => Some("п")
    case 'r' => Some("р") case 's' => Some("с") case 't' => Some("т")
    case 'u' => Some("у") case 'f' => Some("ф") case 'h' => Some("х")
    case 'j' => Some("дж") case 'x' => Some("кс") case 'w' => Some("в")
    case 'q' => Some("к") case 'c' => Some("ц")
    case _ => None
  }

  function Digraph(c: char, d: char): Option<string>
  {
    match (c, d)
    case ('y', 'o') => Some("ё") case ('z', 'h') => Some("ж")
    case ('k', 'h') => Some("х") case ('t', 's') => Some("ц")
    case ('c', 'h') => Some("ч") case ('s', 'h') => Some("ш")
    case _ => None
  }

  /** The length of the key consumed at position `i` of `t`: the longest key
      of length 4, 3, 2 or 1 that starts there, or 0 when none does. */
  function MatchAt(t: string, i: nat): (n: nat)
    requires i < |t|
    ensures n <= 4 && i + n <= |t|
    ensures n > 0 ==> Cyrillic(t[i..i + n]).Some?
    ensures n < 4 && i + 4 <= |t| ==> Cyrillic(t[i..i + 4]).None?
    ensures n < 3 && i + 3 <= |t| ==> Cyrillic(t[i..i + 3]).None?
    ensures n < 2 && i + 2 <= |t| ==> Cyrillic(t[i..i + 2]).None?
    ensures n < 1 ==> Cyrillic(t[i..i + 1]).None?
  {
    if i + 4 <= |t| && Cyrillic(t[i..i + 4]).Some? then 4
    else if i + 3 <= |t| && Cyrillic(t[i..i + 3]).Some? then 3
    else if i + 2 <= |t| && Cyrillic(t[i..i + 2]).Some? then 2
    else if Cyrillic([t[i]]).Some? then (assert t[i..i + 1] == [t[i]]; 1)
    else (assert t[i..i + 1] == [t[i]]; 0)
  }

  /** The greedy rewrite of an already lower-cased text from position `i`
      on: the longest key is replaced, a character that starts no key is
      copied. */
  function TranslitAt(t: string, i: nat): string
    requires i <= |t|
    decreases |t| - i
  {
    if i == |t| then []
    else
      var n := MatchAt(t, i);
      if n == 0 then [t[i]] + TranslitAt(t, i + 1)
      else Cyrillic(t[i..i + n]).value + TranslitAt(t, i + n)
  }

  /** transliterate_to_cyrillic */
  function Transliterate(text: string): string
  {
    TranslitAt(Lower(text), 0)
  }

  /** is_latin: the lower-cased text holds a Latin letter. */
  predicate IsLatin(text: string)
  {
    exists i :: 0 <= i < |Lower(text)| && IsLatinLetter(Lower(text)[i])
  }

  // ---------------------------------------------------------------- the loop

  lemma Regroup(a: string, b: string, c: string)
    ensures (a + b) + c == a + (b + c)
  {
  }

  /** The while loop of transliterate_to_cyrillic. */
  method TransliterateToCyrillic(text: string) returns (result: string)
    ensures result == Transliterate(text)
  {
    result := RewriteLowered(Lower(text));
  }

  /** The loop itself, over the lower-cased text. */
  method RewriteLowered(t: string) returns (result: string)
    ensures result == TranslitAt(t, 0)
  {
    result := "";
    var i := 0;
    while i < |t|
      invariant 0 <= i <= |t|
      invariant result + TranslitAt(t, i) == TranslitAt(t, 0)
      decreases |t| - i
    {
      ghost var before, from := result, i;
      if i + 4 <= |t| && Cyrillic(t[i..i + 4]).Some? {
        result := result + Cyrillic(t[i..i + 4]).value;
        i := i + 4;
      } else if i + 3 <= |t| && Cyrillic(t[i..i + 3]).Some? {
        result := result + Cyrillic(t[i..i + 3]).value;
        i := i + 3;
      } else if i + 2 <= |t| && Cyrillic(t[i..i + 2]).Some? {
        result := result + Cyrillic(t[i..i + 2]).value;
        i := i + 2;
      } else if Cyrillic([t[i]]).Some? {
        result := result + Cyrillic([t[i]]).value;
        i := i + 1;
      } else {
        result := result + [t[i]];
        i := i + 1;
      }
      ghost var piece, rest := result[|before|..], TranslitAt(t, i);
      assert TranslitAt(t, from) == piece + rest;
      assert result == before + piece;
      Regroup(before, piece, rest);
    }
  }

  // ---------------------------------------------------------------- properties

  /** Rewriting a lower-cased text leaves no Latin letter, since every Latin
      letter is a key, and no capital, since copied characters were already
      lower case and no Cyrillic spelling holds a capital. */
  lemma {:induction false} TranslitNoLatin(t: string, i: nat)
    requires i <= |t|
    ensures forall j :: 0 <= j < |TranslitAt(t, i)| ==> !IsLatinLetter(TranslitAt(t, i)[j])
    ensures (forall j :: i <= j < |t| ==> LowerChar(t[j]) == t[j])
        ==> forall j :: 0 <= j < |TranslitAt(t, i)| ==> LowerChar(TranslitAt(t, i)[j]) == TranslitAt(t, i)[j]
    decreases |t| - i
  {
    if i < |t| {
      var n := MatchAt(t, i);
      if n == 0 {
        assert t[i..i + 1] == [t[i]];
        TranslitNoLatin(t, i + 1);
      } else {
        TranslitNoLatin(t, i + n);
      }
    }
  }

  /** The output of transliterate_to_cyrillic never counts as Latin. */
  lemma OutputNotLatin(text: string)
    ensures !IsLatin(Transliterate(text))
  {
    var out := Transliterate(text);
    forall j | 0 <= j < |Lower(text)| ensures LowerChar(Lower(text)[j]) == Lower(text)[j] {
    }
    TranslitNoLatin(Lower(text), 0);
    assert Lower(out) == out;
  }

  /** Where no Latin letter is left, no key matches, so every character is
      copied. */
  lemma {:induction false} NoLatinCopied(t: string, i: nat)
    requires i <= |t|
    requires forall j :: i <= j < |t| ==> !IsLatinLetter(t[j])
    ensures TranslitAt(t, i) == t[i..]
    decreases |t| - i
  {
    if i < |t| {
      assert Cyrillic(t[i..i + 1]).None? by {
        assert !IsLatinLetter(t[i..i + 1][0]);
      }
      assert MatchAt(t, i) == 0;
      NoLatinCopied(t, i + 1);
      assert t[i..] == [t[i]] + t[i + 1..];
    }
  }

  /** A text without Latin letters is only lower-cased. */
  lemma NonLatinTextIsLowered(text: string)
    requires !IsLatin(text)
    ensures Transliterate(text) == Lower(text)
  {
    NoLatinCopied(Lower(text), 0);
  }

  /** The tetragraph wins over the two digraphs it is made of: "Shch" is
      one letter, not sh followed by ch. */
  lemma LongestKeyWins()
    ensures Transliterate("Shch") == "щ"
    ensures TranslitAt("shch", 2) == "ч"
  {
    assert Lower("Shch") == "shch";
    assert MatchAt("shch", 0) == 4;
    assert MatchAt("shch", 2) == 2 by {
      assert "shch"[2..4] == "ch";
    }
  }
}
