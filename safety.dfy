/**
  The safety filter applied to generated story text (helper.py, `is_safe`):
  text is unsafe when its lower-cased form contains one of a fixed list of
  banned words as a plain substring. Lower-casing covers ASCII letters only.
 */
module Safety {

  /** The banned words, in the order the source lists them. */
  const BannedKeywords: seq<string> := ["suicide", "murder", "kill", "rape", "torture"]

  function LowerChar(c: char): (d: char)
    ensures 'A' <= c <= 'Z' ==> d as int == c as int + 32
    ensures !('A' <= c <= 'Z') ==> d == c
  {
    if 'A' <= c <= 'Z' then (c as int + 32) as char else c
  }

  /** `str.lower()` restricted to ASCII. */
  function Lower(s: string): (r: string)
    ensures |r| == |s|
    ensures forall i :: 0 <= i < |s| ==> r[i] == LowerChar(s[i])
  {
    seq(|s|, i requires 0 <= i < |s| => LowerChar(s[i]))
  }

  /** `word` sits in `text` starting at index `i`. */
  ghost predicate OccursAt(text: string, word: string, i: int) {
    0 <= i && i + |word| <= |text| && text[i..i + |word|] == word
  }

  /** Python's `word in text` on strings, scanning from the left. */
  function Contains(text: string, word: string): bool
    decreases |text|
  {
    if |word| > |text| then false
    else if text[..|word|] == word then true
    else Contains(text[1..], word)
  }

  /** `any(word in text for word in words)`. */
  function AnyContained(words: seq<string>, text: string): bool
    decreases |words|
  {
    words != [] && (Contains(text, words[0]) || AnyContained(words[1..], text))
  }

  /** helper.py `is_safe`. */
  function IsSafe(text: string): (r: bool)
    ensures r <==> forall k :: 0 <= k < |BannedKeywords| ==> !Contains(Lower(text), BannedKeywords[k])
  {
    AnyContainedIff(BannedKeywords, Lower(text));
    !AnyContained(BannedKeywords, Lower(text))
  }

  /** The scan finds `word` exactly when it occurs somewhere in `text`. */
  lemma {:induction false} ContainsIff(text: string, word: string)
    ensures Contains(text, word) <==> exists i :: OccursAt(text, word, i)
    decreases |text|
  {
    if |word| > |text| {
    } else if text[..|word|] == word {
      assert OccursAt(text, word, 0);
    } else {
      ContainsIff(text[1..], word);
      if Contains(text[1..], word) {
        var i :| OccursAt(text[1..], word, i);
        assert text[i + 1..i + 1 + |word|] == text[1..][i..i + |word|];
        assert OccursAt(text, word, i + 1);
      } else {
        forall i | OccursAt(text, word, i) ensures false {
          assert i != 0;
          assert text[1..][i - 1..i - 1 + |word|] == text[i..i + |word|];
          assert OccursAt(text[1..], word, i - 1);
        }
      }
    }
  }

  lemma {:induction false} AnyContainedIff(words: seq<string>, text: string)
    ensures AnyContained(words, text) <==> exists k :: 0 <= k < |words| && Contains(text, words[k])
    decreases |words|
  {
    if words != [] {
      AnyContainedIff(words[1..], text);
      if AnyContained(words[1..], text) {
        var k :| 0 <= k < |words[1..]| && Contains(text, words[1..][k]);
        assert Contains(text, words[k + 1]);
      }
      forall k | 1 <= k < |words| && Contains(text, words[k])
        ensures AnyContained(words[1..], text)
      {
        assert words[1..][k - 1] == words[k];
      }
    }
  }

  /** Text is unsafe exactly when some banned word occurs in its lower-cased form. */
  lemma IsSafeIff(text: string)
    ensures !IsSafe(text) <==>
      exists k, i :: 0 <= k < |BannedKeywords| && OccursAt(Lower(text), BannedKeywords[k], i)
  {
    AnyContainedIff(BannedKeywords, Lower(text));
    forall k | 0 <= k < |BannedKeywords| {
      ContainsIff(Lower(text), BannedKeywords[k]);
    }
  }

  lemma LowerAppend(a: string, b: string)
    ensures Lower(a + b) == Lower(a) + Lower(b)
  {
  }

  /** Any text in which a word that lower-cases to a banned word occurs is unsafe, whatever its letter case. */
  lemma UnsafeIfContains(pre: string, w: string, post: string)
    requires Lower(w) in BannedKeywords
    ensures !IsSafe(pre + w + post)
  {
    var text := pre + w + post;
    LowerAppend(pre + w, post);
    LowerAppend(pre, w);
    var k :| 0 <= k < |BannedKeywords| && BannedKeywords[k] == Lower(w);
    assert Lower(text)[|pre|..|pre| + |w|] == Lower(w);
    assert OccursAt(Lower(text), BannedKeywords[k], |pre|);
    IsSafeIff(text);
  }

  /** A text that lower-cases to a banned word is unsafe. */
  lemma UnsafeIfLowersToKeyword(text: string)
    requires Lower(text) in BannedKeywords
    ensures !IsSafe(text)
  {
    var k :| 0 <= k < |BannedKeywords| && BannedKeywords[k] == Lower(text);
    assert Lower(text)[0..|text|] == Lower(text);
    assert OccursAt(Lower(text), BannedKeywords[k], 0);
    IsSafeIff(text);
  }

  /** Upper- and mixed-case spellings of a banned word are caught. */
  lemma MurderInAnyCaseIsUnsafe()
    ensures !IsSafe("MURDER") && !IsSafe("Murder")
  {
    MurderSpellings();
    UnsafeIfLowersToKeyword("MURDER");
    UnsafeIfLowersToKeyword("Murder");
  }

  lemma MurderSpellings()
    ensures Lower("MURDER") == BannedKeywords[1]
    ensures Lower("Murder") == BannedKeywords[1]
  {
    var up, mixed := Lower("MURDER"), Lower("Murder");
    assert up[0] == 'm' && up[1] == 'u' && up[2] == 'r' && up[3] == 'd' && up[4] == 'e' && up[5] == 'r';
    assert mixed[0] == 'm' && mixed[1] == 'u' && mixed[2] == 'r' && mixed[3] == 'd' && mixed[4] == 'e' && mixed[5] == 'r';
  }

  /** Matching is by raw substring, so the harmless word "skill" trips the filter. */
  lemma SkillIsUnsafe(pre: string, post: string)
    ensures !IsSafe(pre + "skill" + post)
  {
    assert Lower("kill") == "kill" == BannedKeywords[2];
    UnsafeIfContains(pre + "s", "kill", post);
    assert pre + "s" + "kill" + post == pre + "skill" + post;
  }

  /** Letter case never matters to the filter. */
  lemma {:induction false} IsSafeIgnoresCase(a: string, b: string)
    requires |a| == |b|
    requires forall i :: 0 <= i < |a| ==> LowerChar(a[i]) == LowerChar(b[i])
    ensures IsSafe(a) == IsSafe(b)
  {
    assert Lower(a) == Lower(b);
  }

  /** Text in which no banned word occurs, in any letter case, is safe; the empty text among it. */
  lemma SafeWithoutKeywords(text: string)
    requires forall k, i :: 0 <= k < |BannedKeywords| ==> !OccursAt(Lower(text), BannedKeywords[k], i)
    ensures IsSafe(text)
  {
    IsSafeIff(text);
  }

  lemma EmptyIsSafe()
    ensures IsSafe("")
  {
    SafeWithoutKeywords("");
  }
}
