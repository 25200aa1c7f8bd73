/**
 * `TextCleaner` of the upload page's content processor: three rounds of
 * regular-expression replacements that drop runs of noise punctuation,
 * close up white space before punctuation and open it after, and collapse
 * repeated punctuation, followed by a final trim.
 */
module Cleaner {
  import opened TextUtil

  /** The characters of the class `[;:,.'"\-_]`. */
  predicate IsNoise(c: char)
  {
    c == ';' || c == ':' || c == ',' || c == '.' || c == '\'' || c == '"' || c == '-' || c == '_'
  }

  /** The characters of the class `[.,!?;:]`. */
  predicate IsMark(c: char)
  {
    c == '.' || c == ',' || c == '!' || c == '?' || c == ';' || c == ':'
  }

  /** A property of two neighbouring characters that a text must not have anywhere. */
  predicate NoPair(s: string, bad: (char, char) -> bool)
  {
    forall k :: 0 <= k < |s| - 1 ==> !bad(s[k], s[k + 1])
  }

  lemma SliceNoPair(s: string, a: nat, b: nat, bad: (char, char) -> bool)
    requires a <= b <= |s| && NoPair(s, bad)
    ensures NoPair(s[a..b], bad)
  {
    var t := s[a..b];
    forall k | 0 <= k < |t| - 1 ensures !bad(t[k], t[k + 1]) {
      assert t[k] == s[a + k] && t[k + 1] == s[a + k + 1];
    }
  }

  lemma TrimNoPair(s: string, bad: (char, char) -> bool)
    requires NoPair(s, bad)
    ensures NoPair(Trim(s), bad)
  {
    TrimIsTrimmed(s);
    var a, b :| 0 <= a <= b <= |s| && Trim(s) == s[a..b];
    SliceNoPair(s, a, b, bad);
  }

  // ---------------------------------------------------------------------
  // removeNoisePatterns
  // ---------------------------------------------------------------------

  /** `([;:,.'"\-_])\1{2,}` at `i`, replaced by `$1`: three or more of the same noise character become one. */
  function NoiseRunAt(s: string, i: nat): Option<Hit>
  {
    if i < |s| && IsNoise(s[i]) && Run(s, i, c => c == s[i]) >= 3
    then Some(Hit(i + Run(s, i, c => c == s[i]), [s[i]])) else None
  }

  /** `[;:,.'"\-_]{3,}` at `i`, replaced by a space: any three or more noise characters in a row go. */
  function NoiseMixAt(s: string, i: nat): Option<Hit>
  {
    if i < |s| && Run(s, i, IsNoise) >= 3 then Some(Hit(i + Run(s, i, IsNoise), " ")) else None
  }

  /** `\.{4,}` at `i`, replaced by `...`. */
  function DotsAt(s: string, i: nat): Option<Hit>
  {
    if i < |s| && Run(s, i, c => c == '.') >= 4 then Some(Hit(i + Run(s, i, c => c == '.'), "...")) else None
  }

  function RemoveNoisePatterns(text: string): string
  {
    ReplaceAll(ReplaceAll(ReplaceAll(text, NoiseRunAt), NoiseMixAt), DotsAt)
  }

  /** No three noise characters in a row. */
  predicate NoNoiseTriple(s: string)
  {
    forall k :: 0 <= k < |s| - 2 ==> !(IsNoise(s[k]) && IsNoise(s[k + 1]) && IsNoise(s[k + 2]))
  }

  lemma TripleCons(c: char, rest: string)
    requires NoNoiseTriple(rest)
    requires !(IsNoise(c) && |rest| > 1 && IsNoise(rest[0]) && IsNoise(rest[1]))
    ensures NoNoiseTriple([c] + rest)
  {
    var o := [c] + rest;
    forall k | 0 < k < |o| - 2 ensures !(IsNoise(o[k]) && IsNoise(o[k + 1]) && IsNoise(o[k + 2])) {
      assert o[k] == rest[k - 1] && o[k + 1] == rest[k] && o[k + 2] == rest[k + 1];
    }
  }

  /**
   * What the mixed-run step yields from `i` on: no noise triple, and as many
   * leading noise characters as the input has from `i` when those are fewer
   * than three, none otherwise.
   */
  predicate MixShape(s: string, i: nat, o: string)
    requires i <= |s|
  {
    NoNoiseTriple(o)
    && (i < |s| ==> o != [] && (IsNoise(o[0]) <==> 1 <= Run(s, i, IsNoise) <= 2))
    && ((|o| > 1 && IsNoise(o[0])) ==> (IsNoise(o[1]) <==> Run(s, i, IsNoise) == 2))
  }

  lemma NoiseMixHitStep(s: string, i: nat)
    requires i < |s| && ValidHit(s, i, NoiseMixAt(s, i))
    requires MixShape(s, NoiseMixAt(s, i).value.end, ReplaceFrom(s, NoiseMixAt(s, i).value.end, NoiseMixAt))
    ensures MixShape(s, i, ReplaceFrom(s, i, NoiseMixAt))
  {
    var rest := ReplaceFrom(s, NoiseMixAt(s, i).value.end, NoiseMixAt);
    assert NoiseMixAt(s, i).value.repl == [' '];
    assert Run(s, i, IsNoise) >= 3;
    TripleCons(' ', rest);
  }

  lemma NoiseMixPlainStep(s: string, i: nat)
    requires i < |s| && !ValidHit(s, i, NoiseMixAt(s, i))
    requires MixShape(s, i + 1, ReplaceFrom(s, i + 1, NoiseMixAt))
    ensures MixShape(s, i, ReplaceFrom(s, i, NoiseMixAt))
  {
    var rest := ReplaceFrom(s, i + 1, NoiseMixAt);
    assert ReplaceFrom(s, i, NoiseMixAt) == [s[i]] + rest;
    if IsNoise(s[i]) {
      assert Run(s, i, IsNoise) == 1 + Run(s, i + 1, IsNoise);
    }
    TripleCons(s[i], rest);
  }

  lemma {:induction false} NoiseMixClears(s: string, i: nat)
    requires i <= |s|
    ensures MixShape(s, i, ReplaceFrom(s, i, NoiseMixAt))
    decreases |s| - i
  {
    if i < |s| {
      if ValidHit(s, i, NoiseMixAt(s, i)) {
        NoiseMixClears(s, NoiseMixAt(s, i).value.end);
        NoiseMixHitStep(s, i);
      } else {
        NoiseMixClears(s, i + 1);
        NoiseMixPlainStep(s, i);
      }
    }
  }

  lemma NoTripleNoDots(s: string)
    requires NoNoiseTriple(s)
    ensures ReplaceAll(s, DotsAt) == s
  {
    forall k | 0 <= k < |s| ensures !ValidHit(s, k, DotsAt(s, k)) {
      if k + 2 < |s| {
        assert !(IsNoise(s[k]) && IsNoise(s[k + 1]) && IsNoise(s[k + 2]));
      }
    }
    ReplaceWithoutHits(s, 0, DotsAt);
    assert s[0..] == s;
  }

  /**
   * After `removeNoisePatterns` no three noise characters stand together,
   * and the last step, which shortens runs of four or more full stops to
   * an ellipsis, never finds anything to do.
   */
  lemma NoiseRemoved(text: string)
    ensures NoNoiseTriple(RemoveNoisePatterns(text))
    ensures RemoveNoisePatterns(text) == ReplaceAll(ReplaceAll(text, NoiseRunAt), NoiseMixAt)
  {
    var t := ReplaceAll(ReplaceAll(text, NoiseRunAt), NoiseMixAt);
    NoiseMixClears(ReplaceAll(text, NoiseRunAt), 0);
    assert NoNoiseTriple(t);
    NoTripleNoDots(t);
  }

  /**
   * The same-character step turns an ellipsis into a single full stop, so
   * "..." does not survive cleaning although it is meant to.
   */
  lemma EllipsisBecomesStop(s: string, i: nat)
    requires i + 3 <= |s| && s[i] == '.' && s[i + 1] == '.' && s[i + 2] == '.'
    requires i + 3 == |s| || s[i + 3] != '.'
    ensures NoiseRunAt(s, i) == Some(Hit(i + 3, "."))
  {
    assert Run(s, i, c => c == s[i]) == 3 by {
      var f := c => c == s[i];
      assert Run(s, i + 3, f) == 0;
      assert Run(s, i + 2, f) == 1;
      assert Run(s, i + 1, f) == 2;
    }
  }

  // ---------------------------------------------------------------------
  // normalizeWhitespace
  // ---------------------------------------------------------------------

  /** `\s+([.,!?;:])` at `i`, replaced by `$1`: white space before punctuation goes. */
  function SpaceBeforeMarkAt(s: string, i: nat): Option<Hit>
  {
    if i < |s| && SpaceRun(s, i) >= 1 && i + SpaceRun(s, i) < |s| && IsMark(s[i + SpaceRun(s, i)])
    then Some(Hit(i + SpaceRun(s, i) + 1, [s[i + SpaceRun(s, i)]])) else None
  }

  /** `([.,!?;:])([A-Za-z])` at `i`, replaced by `$1 $2`: a space goes between punctuation and a letter. */
  function MarkBeforeLetterAt(s: string, i: nat): Option<Hit>
  {
    if i + 1 < |s| && IsMark(s[i]) && IsAlpha(s[i + 1]) then Some(Hit(i + 2, [s[i], ' ', s[i + 1]])) else None
  }

  function NormalizeWhitespace(text: string): string
  {
    ReplaceAll(ReplaceAll(text, SpaceBeforeMarkAt), MarkBeforeLetterAt)
  }

  predicate SpaceBeforeMark(a: char, b: char)
  {
    IsSpace(a) && IsMark(b)
  }

  /** What removing white space before punctuation yields from `i` on. */
  predicate MarkGoneShape(s: string, i: nat, o: string)
    requires i <= |s|
  {
    NoPair(o, SpaceBeforeMark)
    && (i < |s| ==> o != [] && o[0] == (if SpaceBeforeMarkAt(s, i).Some? then s[i + SpaceRun(s, i)] else s[i]))
  }

  lemma MarkGoneHitStep(s: string, i: nat)
    requires i < |s| && ValidHit(s, i, SpaceBeforeMarkAt(s, i))
    requires MarkGoneShape(s, SpaceBeforeMarkAt(s, i).value.end, ReplaceFrom(s, SpaceBeforeMarkAt(s, i).value.end, SpaceBeforeMarkAt))
    ensures MarkGoneShape(s, i, ReplaceFrom(s, i, SpaceBeforeMarkAt))
  {
    var rest := ReplaceFrom(s, SpaceBeforeMarkAt(s, i).value.end, SpaceBeforeMarkAt);
    assert ReplaceFrom(s, i, SpaceBeforeMarkAt) == [s[i + SpaceRun(s, i)]] + rest;
    NoPairCons(s[i + SpaceRun(s, i)], rest, SpaceBeforeMark);
  }

  lemma MarkGonePlainStep(s: string, i: nat)
    requires i < |s| && !ValidHit(s, i, SpaceBeforeMarkAt(s, i))
    requires MarkGoneShape(s, i + 1, ReplaceFrom(s, i + 1, SpaceBeforeMarkAt))
    ensures MarkGoneShape(s, i, ReplaceFrom(s, i, SpaceBeforeMarkAt))
  {
    var rest := ReplaceFrom(s, i + 1, SpaceBeforeMarkAt);
    assert ReplaceFrom(s, i, SpaceBeforeMarkAt) == [s[i]] + rest;
    if i + 1 < |s| && IsSpace(s[i]) {
      assert SpaceRun(s, i) == 1 + SpaceRun(s, i + 1);
      if SpaceBeforeMarkAt(s, i + 1).Some? {
        assert false;
      }
      assert !IsMark(s[i + 1]);
    }
    NoPairCons(s[i], rest, SpaceBeforeMark);
  }

  lemma {:induction false} SpaceBeforeMarkGone(s: string, i: nat)
    requires i <= |s|
    ensures MarkGoneShape(s, i, ReplaceFrom(s, i, SpaceBeforeMarkAt))
    decreases |s| - i
  {
    if i < |s| {
      if ValidHit(s, i, SpaceBeforeMarkAt(s, i)) {
        SpaceBeforeMarkGone(s, SpaceBeforeMarkAt(s, i).value.end);
        MarkGoneHitStep(s, i);
      } else {
        SpaceBeforeMarkGone(s, i + 1);
        MarkGonePlainStep(s, i);
      }
    }
  }

  lemma SpacedMarkNoPair(mark: char, letter: char, rest: string)
    requires IsMark(mark) && IsAlpha(letter) && NoPair(rest, SpaceBeforeMark)
    ensures NoPair([mark, ' ', letter] + rest, SpaceBeforeMark)
  {
    NoPairCons(letter, rest, SpaceBeforeMark);
    NoPairCons(' ', [letter] + rest, SpaceBeforeMark);
    NoPairCons(mark, [' '] + ([letter] + rest), SpaceBeforeMark);
    assert [mark, ' ', letter] + rest == [mark] + ([' '] + ([letter] + rest));
  }

  lemma LetterSpacingHitStep(s: string, i: nat)
    requires i < |s| && ValidHit(s, i, MarkBeforeLetterAt(s, i))
    requires NoPair(ReplaceFrom(s, i + 2, MarkBeforeLetterAt), SpaceBeforeMark)
    ensures NoPair(ReplaceFrom(s, i, MarkBeforeLetterAt), SpaceBeforeMark)
    ensures ReplaceFrom(s, i, MarkBeforeLetterAt) != [] && ReplaceFrom(s, i, MarkBeforeLetterAt)[0] == s[i]
  {
    SpacedMarkNoPair(s[i], s[i + 1], ReplaceFrom(s, i + 2, MarkBeforeLetterAt));
  }

  lemma LetterSpacingPlainStep(s: string, i: nat)
    requires i < |s| && !ValidHit(s, i, MarkBeforeLetterAt(s, i)) && NoPair(s, SpaceBeforeMark)
    requires NoPair(ReplaceFrom(s, i + 1, MarkBeforeLetterAt), SpaceBeforeMark)
    requires i + 1 < |s| ==> ReplaceFrom(s, i + 1, MarkBeforeLetterAt) != [] && ReplaceFrom(s, i + 1, MarkBeforeLetterAt)[0] == s[i + 1]
    ensures NoPair(ReplaceFrom(s, i, MarkBeforeLetterAt), SpaceBeforeMark)
    ensures ReplaceFrom(s, i, MarkBeforeLetterAt) != [] && ReplaceFrom(s, i, MarkBeforeLetterAt)[0] == s[i]
  {
    assert i + 1 < |s| ==> !SpaceBeforeMark(s[i], s[i + 1]);
    NoPairCons(s[i], ReplaceFrom(s, i + 1, MarkBeforeLetterAt), SpaceBeforeMark);
  }

  lemma {:induction false} LetterSpacingKeeps(s: string, i: nat)
    requires i <= |s| && NoPair(s, SpaceBeforeMark)
    ensures NoPair(ReplaceFrom(s, i, MarkBeforeLetterAt), SpaceBeforeMark)
    ensures i < |s| ==> ReplaceFrom(s, i, MarkBeforeLetterAt) != [] && ReplaceFrom(s, i, MarkBeforeLetterAt)[0] == s[i]
    decreases |s| - i
  {
    if i < |s| {
      if i + 1 < |s| && IsMark(s[i]) && IsAlpha(s[i + 1]) {
        LetterSpacingKeeps(s, i + 2);
        LetterSpacingHitStep(s, i);
      } else {
        LetterSpacingKeeps(s, i + 1);
        LetterSpacingPlainStep(s, i);
      }
    }
  }

  /** After `normalizeWhitespace` no white space stands directly before `.`, `,`, `!`, `?`, `;` or `:`. */
  lemma NormalizedNoSpaceBeforeMark(text: string)
    ensures NoPair(NormalizeWhitespace(text), SpaceBeforeMark)
  {
    SpaceBeforeMarkGone(text, 0);
    LetterSpacingKeeps(ReplaceAll(text, SpaceBeforeMarkAt), 0);
  }

  // ---------------------------------------------------------------------
  // removeDuplicatePunctuation
  // ---------------------------------------------------------------------

  /** `([…])\1+` at `i` for the character class `marks`, replaced by `$1`. */
  function RepeatAt(s: string, i: nat, marks: string): Option<Hit>
  {
    if i + 1 < |s| && s[i] in marks && Run(s, i + 1, c => c == s[i]) >= 1
    then Some(Hit(i + 1 + Run(s, i + 1, c => c == s[i]), [s[i]])) else None
  }

  const EndMarks := "!?."
  const InnerMarks := ",;:"

  function EndRepeatAt(s: string, i: nat): Option<Hit> { RepeatAt(s, i, EndMarks) }
  function InnerRepeatAt(s: string, i: nat): Option<Hit> { RepeatAt(s, i, InnerMarks) }

  function RemoveDuplicatePunctuation(text: string): string
  {
    ReplaceAll(ReplaceAll(text, EndRepeatAt), InnerRepeatAt)
  }

  /** No character of `marks` stands twice in a row. */
  predicate NoRepeat(s: string, marks: string)
  {
    forall k :: 0 <= k < |s| - 1 ==> !(s[k] == s[k + 1] && s[k] in marks)
  }

  lemma NoRepeatCons(c: char, rest: string, marks: string)
    requires NoRepeat(rest, marks)
    requires rest != [] ==> !(c == rest[0] && c in marks)
    ensures NoRepeat([c] + rest, marks)
  {
    var o := [c] + rest;
    forall k | 0 < k < |o| - 1 ensures !(o[k] == o[k + 1] && o[k] in marks) {
      assert o[k] == rest[k - 1] && o[k + 1] == rest[k];
    }
  }

  lemma NoPairCons(c: char, rest: string, bad: (char, char) -> bool)
    requires NoPair(rest, bad)
    requires rest != [] ==> !bad(c, rest[0])
    ensures NoPair([c] + rest, bad)
  {
    var o := [c] + rest;
    forall k | 0 < k < |o| - 1 ensures !bad(o[k], o[k + 1]) {
      assert o[k] == rest[k - 1] && o[k + 1] == rest[k];
    }
  }

  /** Collapsing the repeats of the characters of `marks` from `i` on leaves none of them and starts with the character at `i`. */
  lemma {:induction false} RepeatCollapse(s: string, i: nat, marks: string, at: (string, nat) -> Option<Hit>)
    requires i <= |s|
    requires forall t, k :: at(t, k) == RepeatAt(t, k, marks)
    ensures NoRepeat(ReplaceFrom(s, i, at), marks)
    ensures i < |s| ==> ReplaceFrom(s, i, at) != [] && ReplaceFrom(s, i, at)[0] == s[i]
    decreases |s| - i
  {
    if i < |s| {
      var o := ReplaceFrom(s, i, at);
      if ValidHit(s, i, at(s, i)) {
        var e := at(s, i).value.end;
        RepeatCollapse(s, e, marks, at);
        var rest := ReplaceFrom(s, e, at);
        assert o == [s[i]] + rest;
        assert e < |s| ==> s[e] != s[i];
        NoRepeatCons(s[i], rest, marks);
      } else {
        RepeatCollapse(s, i + 1, marks, at);
        var rest := ReplaceFrom(s, i + 1, at);
        assert o == [s[i]] + rest;
        if i + 1 < |s| && s[i] == s[i + 1] && s[i] in marks {
          assert false;
        }
        NoRepeatCons(s[i], rest, marks);
      }
    }
  }

  /** What the collapse keeps from `i` on: no repeats of `other`, and no white space before punctuation, when the input had none. */
  predicate CollapseKeeps(s: string, o: string, other: string)
  {
    (NoRepeat(s, other) ==> NoRepeat(o, other))
    && (NoPair(s, SpaceBeforeMark) ==> NoPair(o, SpaceBeforeMark))
  }

  lemma CollapseKeepsHitStep(s: string, i: nat, marks: string, other: string, at: (string, nat) -> Option<Hit>)
    requires i < |s| && at(s, i) == RepeatAt(s, i, marks) && ValidHit(s, i, at(s, i))
    requires forall c :: c in marks ==> IsMark(c)
    requires CollapseKeeps(s, ReplaceFrom(s, at(s, i).value.end, at), other)
    requires at(s, i).value.end < |s| ==> ReplaceFrom(s, at(s, i).value.end, at) != [] && ReplaceFrom(s, at(s, i).value.end, at)[0] == s[at(s, i).value.end]
    ensures CollapseKeeps(s, ReplaceFrom(s, i, at), other)
  {
    var e := at(s, i).value.end;
    var rest := ReplaceFrom(s, e, at);
    assert ReplaceFrom(s, i, at) == [s[i]] + rest;
    assert e < |s| ==> s[e] != s[i];
    assert !IsSpace(s[i]);
    if NoRepeat(s, other) { NoRepeatCons(s[i], rest, other); }
    if NoPair(s, SpaceBeforeMark) { NoPairCons(s[i], rest, SpaceBeforeMark); }
  }

  lemma CollapseKeepsPlainStep(s: string, i: nat, other: string, at: (string, nat) -> Option<Hit>)
    requires i < |s| && !ValidHit(s, i, at(s, i))
    requires CollapseKeeps(s, ReplaceFrom(s, i + 1, at), other)
    requires i + 1 < |s| ==> ReplaceFrom(s, i + 1, at) != [] && ReplaceFrom(s, i + 1, at)[0] == s[i + 1]
    ensures CollapseKeeps(s, ReplaceFrom(s, i, at), other)
  {
    var rest := ReplaceFrom(s, i + 1, at);
    assert ReplaceFrom(s, i, at) == [s[i]] + rest;
    if NoRepeat(s, other) { NoRepeatCons(s[i], rest, other); }
    if NoPair(s, SpaceBeforeMark) { NoPairCons(s[i], rest, SpaceBeforeMark); }
  }

  /**
   * The collapse keeps a text free of repeats of other characters, and of
   * white space before punctuation.
   */
  lemma {:induction false} RepeatCollapseKeeps(s: string, i: nat, marks: string, other: string, at: (string, nat) -> Option<Hit>)
    requires i <= |s|
    requires forall t, k :: at(t, k) == RepeatAt(t, k, marks)
    requires forall c :: c in marks ==> IsMark(c)
    ensures CollapseKeeps(s, ReplaceFrom(s, i, at), other)
    decreases |s| - i
  {
    if i < |s| {
      if ValidHit(s, i, at(s, i)) {
        var e := at(s, i).value.end;
        RepeatCollapseKeeps(s, e, marks, other, at);
        RepeatCollapse(s, e, marks, at);
        CollapseKeepsHitStep(s, i, marks, other, at);
      } else {
        RepeatCollapseKeeps(s, i + 1, marks, other, at);
        RepeatCollapse(s, i + 1, marks, at);
        CollapseKeepsPlainStep(s, i, other, at);
      }
    }
  }

  lemma SliceNoRepeat(s: string, a: nat, b: nat, marks: string)
    requires a <= b <= |s| && NoRepeat(s, marks)
    ensures NoRepeat(s[a..b], marks)
  {
    var t := s[a..b];
    forall k | 0 <= k < |t| - 1 ensures !(t[k] == t[k + 1] && t[k] in marks) {
      assert t[k] == s[a + k] && t[k + 1] == s[a + k + 1];
    }
  }

  /** After `removeDuplicatePunctuation` no punctuation mark of either class is doubled. */
  lemma DuplicatesRemoved(text: string)
    ensures NoRepeat(RemoveDuplicatePunctuation(text), EndMarks)
    ensures NoRepeat(RemoveDuplicatePunctuation(text), InnerMarks)
    ensures NoPair(text, SpaceBeforeMark) ==> NoPair(RemoveDuplicatePunctuation(text), SpaceBeforeMark)
  {
    var t := ReplaceAll(text, EndRepeatAt);
    RepeatCollapse(text, 0, EndMarks, EndRepeatAt);
    RepeatCollapseKeeps(text, 0, EndMarks, InnerMarks, EndRepeatAt);
    RepeatCollapse(t, 0, InnerMarks, InnerRepeatAt);
    RepeatCollapseKeeps(t, 0, InnerMarks, EndMarks, InnerRepeatAt);
  }

  // ---------------------------------------------------------------------
  // clean
  // ---------------------------------------------------------------------

  /** `TextCleaner.clean(text)`. */
  function Clean(text: string): string
  {
    Trim(RemoveDuplicatePunctuation(NormalizeWhitespace(RemoveNoisePatterns(text))))
  }

  /**
   * A cleaned text is trimmed, has no white space before punctuation, and
   * doubles none of `!?.,;:`.
   */
  lemma CleanShape(text: string)
    ensures IsTrimmed(Clean(text))
    ensures NoPair(Clean(text), SpaceBeforeMark)
    ensures NoRepeat(Clean(text), EndMarks) && NoRepeat(Clean(text), InnerMarks)
  {
    var n := NormalizeWhitespace(RemoveNoisePatterns(text));
    NormalizedNoSpaceBeforeMark(RemoveNoisePatterns(text));
    var d := RemoveDuplicatePunctuation(n);
    DuplicatesRemoved(n);
    TrimIsTrimmed(d);
    var a, b :| 0 <= a <= b <= |d| && Trim(d) == d[a..b];
    SliceNoPair(d, a, b, SpaceBeforeMark);
    SliceNoRepeat(d, a, b, EndMarks);
    SliceNoRepeat(d, a, b, InnerMarks);
  }
}
