/**
  String helpers that the dashboard takes from Python's `str`: lower-casing,
  substring search (`a in b`), whitespace splitting, `strip` and the
  `' '.join(s.lower().split())` normalisation of product names.
  Only the ASCII part of Python's case and whitespace tables is modelled.
 */
module Text {

  datatype Option<+T> = None | Some(value: T)

  /** Characters Python's `str.split()`, `str.strip()` and the regex class `\s` treat as white space (ASCII part). */
  predicate IsSpace(c: char)
  {
    // space, tab, line feed, vertical tab, form feed, carriage return, and the four separators 0x1c-0x1f
    c == ' ' || 9 <= c as int <= 13 || 28 <= c as int <= 31
  }

  predicate IsDigit(c: char)
  {
    '0' <= c <= '9'
  }

  function LowerChar(c: char): char
  {
    if 'A' <= c <= 'Z' then (c as int + 32) as char else c
  }

  /** `s.lower()` */
  function Lower(s: string): (r: string)
    ensures |r| == |s|
    ensures forall i :: 0 <= i < |s| ==> r[i] == LowerChar(s[i])
  {
    if s == [] then [] else [LowerChar(s[0])] + Lower(s[1..])
  }

  predicate IsLowered(s: string)
  {
    forall i :: 0 <= i < |s| ==> LowerChar(s[i]) == s[i]
  }

  /** Python's `needle in hay` on strings. */
  predicate Contains(hay: string, needle: string)
  {
    needle <= hay || (hay != [] && Contains(hay[1..], needle))
  }

  /** Python's `needle in hay`, stated as an occurrence at some position. */
  lemma {:induction false} ContainsIffOccurs(hay: string, needle: string)
    ensures Contains(hay, needle) <==> exists i :: 0 <= i <= |hay| - |needle| && needle <= hay[i..]
  {
    if needle <= hay {
      assert hay[0..] == hay;
    } else if hay == [] {
    } else {
      ContainsIffOccurs(hay[1..], needle);
      if Contains(hay[1..], needle) {
        var i :| 0 <= i <= |hay[1..]| - |needle| && needle <= hay[1..][i..];
        assert hay[1..][i..] == hay[i + 1..];
      } else {
        forall i | 1 <= i <= |hay| - |needle|
          ensures hay[i..] == hay[1..][i - 1..]
        {
        }
      }
    }
  }

  /** Python's `a < b` on strings: lexicographic by code point, a proper prefix first. */
  predicate LexLess(a: string, b: string)
  {
    if a == [] then b != []
    else if b == [] then false
    else if a[0] != b[0] then a[0] < b[0]
    else LexLess(a[1..], b[1..])
  }

  lemma {:induction false} LexLessIrreflexive(a: string)
    ensures !LexLess(a, a)
  {
    if a != [] {
      LexLessIrreflexive(a[1..]);
    }
  }

  lemma {:induction false} LexLessTransitive(a: string, b: string, c: string)
    requires LexLess(a, b) && LexLess(b, c)
    ensures LexLess(a, c)
  {
    if a != [] && b != [] && c != [] && a[0] == b[0] && b[0] == c[0] {
      LexLessTransitive(a[1..], b[1..], c[1..]);
    }
  }

  /** Any two different strings are ordered one way or the other. */
  lemma {:induction false} LexLessTotal(a: string, b: string)
    requires a != b
    ensures LexLess(a, b) || LexLess(b, a)
  {
    if a != [] && b != [] && a[0] == b[0] {
      assert a == [a[0]] + a[1..] && b == [b[0]] + b[1..];
      LexLessTotal(a[1..], b[1..]);
    }
  }

  // ---------------------------------------------------------------------------
  // Decimal digits

  predicate AllDigits(s: string)
  {
    forall i :: 0 <= i < |s| ==> IsDigit(s[i])
  }

  function DigitChar(k: int): (c: char)
    requires 0 <= k < 10
  {
    ('0' as int + k) as char
  }

  /** `int(s)` for a string of decimal digits. */
  function DigitsValue(s: string): (n: nat)
    requires AllDigits(s)
  {
    if s == [] then 0 else DigitsValue(s[..|s| - 1]) * 10 + (s[|s| - 1] as int - '0' as int)
  }

  function Pow10(w: nat): (p: nat)
    ensures p >= 1
  {
    if w == 0 then 1 else 10 * Pow10(w - 1)
  }

  /** `n` written in decimal with exactly `width` digits, padded with zeros on the left (`%04d`). */
  function PadDigits(n: nat, width: nat): (s: string)
    ensures |s| == width && AllDigits(s)
  {
    if width == 0 then [] else PadDigits(n / 10, width - 1) + [DigitChar(n % 10)]
  }

  /** Reading back a padded number gives the number, when it fits in the width. */
  lemma {:induction false} ValueOfPadDigits(n: nat, width: nat)
    requires n < Pow10(width)
    ensures DigitsValue(PadDigits(n, width)) == n
  {
    if width > 0 {
      var s := PadDigits(n, width);
      assert s[..|s| - 1] == PadDigits(n / 10, width - 1);
      ValueOfPadDigits(n / 10, width - 1);
    }
  }

  /** Writing back the value of a digit string at its own width gives the string. */
  lemma {:induction false} PadDigitsOfValue(s: string)
    requires AllDigits(s)
    ensures PadDigits(DigitsValue(s), |s|) == s
  {
    if s != [] {
      var init, d := s[..|s| - 1], s[|s| - 1] as int - '0' as int;
      PadDigitsOfValue(init);
      var n := DigitsValue(init) * 10 + d;
      assert n / 10 == DigitsValue(init) && n % 10 == d;
      assert s == init + [DigitChar(d)];
    }
  }

  // ---------------------------------------------------------------------------
  // Splitting on white space

  function DropSpaces(s: string): (r: string)
    ensures |r| <= |s| && r == s[|s| - |r|..]
    ensures r != [] ==> !IsSpace(r[0])
    ensures forall i :: 0 <= i < |s| - |r| ==> IsSpace(s[i])
  {
    if s != [] && IsSpace(s[0]) then DropSpaces(s[1..]) else s
  }

  function TakeWord(s: string): (r: string)
    ensures r <= s
    ensures s != [] && !IsSpace(s[0]) ==> |r| >= 1
    ensures forall i :: 0 <= i < |r| ==> !IsSpace(r[i])
    ensures |r| < |s| ==> IsSpace(s[|r|])
  {
    if s != [] && !IsSpace(s[0]) then [s[0]] + TakeWord(s[1..]) else []
  }

  /** `s.split()` with no separator: the maximal runs of non-space characters. */
  function Words(s: string): (ws: seq<string>)
    decreases |s|
  {
    var t := DropSpaces(s);
    if t == [] then [] else
      var w := TakeWord(t);
      [w] + Words(t[|w|..])
  }

  /** `' '.join(ws)` */
  function Join(ws: seq<string>): string
  {
    if |ws| == 0 then "" else if |ws| == 1 then ws[0] else ws[0] + " " + Join(ws[1..])
  }

  /** `s.strip()` */
  function Strip(s: string): string
  {
    DropTrailingSpaces(DropSpaces(s))
  }

  function DropTrailingSpaces(s: string): (r: string)
    ensures r <= s
    ensures forall i :: |r| <= i < |s| ==> IsSpace(s[i])
    ensures r != [] ==> !IsSpace(r[|r| - 1])
  {
    if s != [] && IsSpace(s[|s| - 1]) then DropTrailingSpaces(s[..|s| - 1]) else s
  }

  /** The dashboard's product-name key: `' '.join(name.lower().split())`. */
  function Normalize(s: string): string
  {
    Join(Words(Lower(s)))
  }

  predicate IsWord(w: string)
  {
    w != [] && forall i :: 0 <= i < |w| ==> !IsSpace(w[i])
  }

  /** Every piece `split()` returns is non-empty and free of white space. */
  lemma {:induction false} WordsAreWords(s: string)
    ensures forall k :: 0 <= k < |Words(s)| ==> IsWord(Words(s)[k])
    decreases |s|
  {
    var t := DropSpaces(s);
    if t != [] {
      var w := TakeWord(t);
      var rest := Words(t[|w|..]);
      assert Words(s) == [w] + rest;
      assert IsWord(w);
      WordsAreWords(t[|w|..]);
      forall k | 0 <= k < |Words(s)|
        ensures IsWord(Words(s)[k])
      {
        if k > 0 {
          assert Words(s)[k] == rest[k - 1];
        }
      }
    }
  }

  lemma {:induction false} LowerIsLowered(s: string)
    ensures IsLowered(Lower(s))
  {
    forall i | 0 <= i < |s|
      ensures LowerChar(Lower(s)[i]) == Lower(s)[i]
    {
    }
  }

  lemma {:induction false} LoweredUnchanged(s: string)
    requires IsLowered(s)
    ensures Lower(s) == s
  {
  }

  lemma LoweredSuffix(s: string, k: nat)
    requires IsLowered(s) && k <= |s|
    ensures IsLowered(s[k..])
  {
    forall i | 0 <= i < |s| - k
      ensures LowerChar(s[k..][i]) == s[k..][i]
    {
      assert s[k..][i] == s[k + i];
    }
  }

  lemma LoweredPrefix(s: string, k: nat)
    requires IsLowered(s) && k <= |s|
    ensures IsLowered(s[..k])
  {
    forall i | 0 <= i < k
      ensures LowerChar(s[..k][i]) == s[..k][i]
    {
      assert s[..k][i] == s[i];
    }
  }

  /** One step of `split()`: the first word, then the words of what follows it. */
  lemma WordsStep(s: string) returns (t: string, w: string)
    requires DropSpaces(s) != []
    ensures t == DropSpaces(s) && w == TakeWord(t) && w == t[..|w|]
    ensures Words(s) == [w] + Words(t[|w|..])
  {
    t := DropSpaces(s);
    w := TakeWord(t);
  }

  lemma LoweredCons(w: string, rest: seq<string>)
    requires IsLowered(w)
    requires forall k :: 0 <= k < |rest| ==> IsLowered(rest[k])
    ensures forall k :: 0 <= k < |[w] + rest| ==> IsLowered(([w] + rest)[k])
  {
  }

  lemma {:induction false} WordsOfLoweredAreLowered(s: string)
    requires IsLowered(s)
    ensures forall k :: 0 <= k < |Words(s)| ==> IsLowered(Words(s)[k])
    decreases |s|
  {
    if DropSpaces(s) != [] {
      var t, w := WordsStep(s);
      LoweredSuffix(s, |s| - |t|);
      LoweredPrefix(t, |w|);
      LoweredSuffix(t, |w|);
      WordsOfLoweredAreLowered(t[|w|..]);
      LoweredCons(w, Words(t[|w|..]));
    }
  }

  lemma {:induction false} JoinOfLoweredIsLowered(ws: seq<string>)
    requires forall k :: 0 <= k < |ws| ==> IsLowered(ws[k])
    ensures IsLowered(Join(ws))
  {
    if |ws| > 1 {
      JoinOfLoweredIsLowered(ws[1..]);
    }
  }

  /** Taking the first word of `w + rest` stops exactly at the end of `w` when `rest` starts with a space. */
  lemma {:induction false} TakeWordOfWord(w: string, rest: string)
    requires forall i :: 0 <= i < |w| ==> !IsSpace(w[i])
    requires rest == [] || IsSpace(rest[0])
    ensures TakeWord(w + rest) == w
  {
    if w != [] {
      assert (w + rest)[1..] == w[1..] + rest;
      TakeWordOfWord(w[1..], rest);
    }
  }

  /** `' '.join` followed by `split()` gives back the words. */
  lemma {:induction false} WordsOfJoin(ws: seq<string>)
    requires forall k :: 0 <= k < |ws| ==> IsWord(ws[k])
    ensures Words(Join(ws)) == ws
  {
    if |ws| == 1 {
      var w := ws[0];
      assert DropSpaces(w) == w;
      TakeWordOfWord(w, []);
      assert w + [] == w;
      assert w[|w|..] == [];
    } else if |ws| > 1 {
      var w := ws[0];
      var tail := " " + Join(ws[1..]);
      var j := w + tail;
      assert Join(ws) == j;
      assert DropSpaces(j) == j;
      TakeWordOfWord(w, tail);
      assert j[|w|..] == tail;
      WordsOfJoin(ws[1..]);
      JoinStartsWithWord(ws[1..]);
      assert DropSpaces(tail) == DropSpaces(Join(ws[1..]));
      assert Words(tail) == Words(Join(ws[1..]));
    }
  }

  lemma {:induction false} JoinStartsWithWord(ws: seq<string>)
    requires forall k :: 0 <= k < |ws| ==> IsWord(ws[k])
    ensures DropSpaces(Join(ws)) == Join(ws)
  {
    if |ws| > 1 {
      assert Join(ws)[0] == ws[0][0];
    }
  }

  /** Normalising a normalised name changes nothing, so the exclusion keywords may be stored normalised. */
  lemma NormalizeIdempotent(s: string)
    ensures Normalize(Normalize(s)) == Normalize(s)
  {
    var ws := Words(Lower(s));
    LowerIsLowered(s);
    WordsOfLoweredAreLowered(Lower(s));
    JoinOfLoweredIsLowered(ws);
    LoweredUnchanged(Join(ws));
    WordsAreWords(Lower(s));
    WordsOfJoin(ws);
  }
  predicate AllSpaces(s: string)
  {
    forall i :: 0 <= i < |s| ==> IsSpace(s[i])
  }

  lemma {:induction false} DropSpacesAfterSpaces(pre: string, s: string)
    requires AllSpaces(pre)
    ensures DropSpaces(pre + s) == DropSpaces(s)
  {
    if pre != [] {
      assert (pre + s)[1..] == pre[1..] + s;
      DropSpacesAfterSpaces(pre[1..], s);
    } else {
      assert pre + s == s;
    }
  }

  lemma {:induction false} DropSpacesBeforeSpaces(s: string, post: string)
    requires AllSpaces(post)
    ensures DropSpaces(s + post) == if DropSpaces(s) == [] then [] else DropSpaces(s) + post
  {
    if s == [] {
      assert [] + post == post;
      DropSpacesAfterSpaces(post, []);
      assert post + [] == post;
    } else if IsSpace(s[0]) {
      assert (s + post)[1..] == s[1..] + post;
      DropSpacesBeforeSpaces(s[1..], post);
    }
  }

  lemma {:induction false} TakeWordBeforeSpaces(s: string, post: string)
    requires AllSpaces(post)
    ensures TakeWord(s + post) == TakeWord(s)
  {
    if s == [] {
      assert [] + post == post;
    } else if !IsSpace(s[0]) {
      assert (s + post)[1..] == s[1..] + post;
      TakeWordBeforeSpaces(s[1..], post);
    }
  }

  lemma SliceOfAppend(a: string, b: string, k: nat)
    requires k <= |a|
    ensures (a + b)[k..] == a[k..] + b
  {
  }

  /** Trailing white space does not change `split()`. */
  lemma {:induction false} WordsBeforeSpaces(s: string, post: string)
    requires AllSpaces(post)
    ensures Words(s + post) == Words(s)
    decreases |s|
  {
    var t := DropSpaces(s);
    DropSpacesBeforeSpaces(s, post);
    if t == [] {
      assert DropSpaces(s + post) == [];
    } else {
      var tp := t + post;
      assert DropSpaces(s + post) == tp;
      var w := TakeWord(t);
      TakeWordBeforeSpaces(t, post);
      assert TakeWord(tp) == w;
      assert Words(s + post) == [w] + Words(tp[|w|..]);
      assert Words(s) == [w] + Words(t[|w|..]);
      SliceOfAppend(t, post, |w|);
      WordsBeforeSpaces(t[|w|..], post);
    }
  }

  /** White space around a string does not change `split()`. */
  lemma WordsIgnoresOuterSpaces(pre: string, s: string, post: string)
    requires AllSpaces(pre) && AllSpaces(post)
    ensures Words(pre + s + post) == Words(s)
  {
    assert pre + s + post == pre + (s + post);
    DropSpacesAfterSpaces(pre, s + post);
    assert Words(pre + (s + post)) == Words(s + post);
    WordsBeforeSpaces(s, post);
  }

  lemma LowerAppend(a: string, b: string)
    ensures Lower(a + b) == Lower(a) + Lower(b)
  {
    assert forall i :: 0 <= i < |a + b| ==> Lower(a + b)[i] == (Lower(a) + Lower(b))[i];
  }

  lemma LowerOfSpaces(s: string)
    requires AllSpaces(s)
    ensures Lower(s) == s
  {
    assert forall i :: 0 <= i < |s| ==> Lower(s)[i] == s[i];
  }

  /** `s.strip()` removes only white space from the two ends. */
  /** `DropSpaces` removes a prefix of white space. */
  lemma LeadingSpaces(s: string) returns (pre: string)
    ensures AllSpaces(pre) && s == pre + DropSpaces(s)
  {
    var u := DropSpaces(s);
    pre := s[..|s| - |u|];
    forall i | 0 <= i < |pre|
      ensures IsSpace(pre[i])
    {
      assert pre[i] == s[i];
    }
    assert s == pre + s[|s| - |u|..];
  }

  /** `DropTrailingSpaces` removes a suffix of white space. */
  lemma TrailingSpaces(u: string) returns (post: string)
    ensures AllSpaces(post) && u == DropTrailingSpaces(u) + post
  {
    var v := DropTrailingSpaces(u);
    post := u[|v|..];
    forall i | 0 <= i < |post|
      ensures IsSpace(post[i])
    {
      assert post[i] == u[|v| + i];
    }
    assert u == u[..|v|] + post;
  }

  /** `s.strip()` removes only white space from the two ends. */
  lemma StripSplits(s: string) returns (pre: string, post: string)
    ensures AllSpaces(pre) && AllSpaces(post)
    ensures s == pre + Strip(s) + post
  {
    var u := DropSpaces(s);
    pre := LeadingSpaces(s);
    post := TrailingSpaces(u);
    ConcatAround(s, pre, u, Strip(s), post);
  }

  lemma ConcatAround(s: string, pre: string, u: string, v: string, post: string)
    requires s == pre + u && u == v + post
    ensures s == pre + v + post
  {
  }

  /** Stripping a name first does not change its normalised form. */
  lemma NormalizeStrip(s: string)
    ensures Normalize(Strip(s)) == Normalize(s)
  {
    var pre, post := StripSplits(s);
    var v := Strip(s);
    LowerAppend(pre + v, post);
    LowerAppend(pre, v);
    LowerOfSpaces(pre);
    LowerOfSpaces(post);
    WordsIgnoresOuterSpaces(pre, Lower(v), post);
  }
}
