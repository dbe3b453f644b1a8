/**
 * `fill_timeline`: for every voice, empty (or create) the voice's combined
 * layer and walk its phrases, words and phonemes in file order. Every
 * phoneme occurrence appends a copy of the last frame of the layer named
 * after the phoneme, renumbered to the occurrence's frame. With rest frames
 * enabled, a phrase or word that starts more than one frame after `last_pos`
 * is preceded by a copy of the `rest` layer's last frame at `last_pos + 1`.
 *
 * The walk is split in two: the copy plan (which layer is copied to which
 * frame number, a function of the project alone) and the application of the
 * plan to the layers of the voice's block.
 */
module Timeline {
  import opened Papagayo
  import opened GreasePencil

  /** The layer whose drawing fills a gap. */
  const RestLayer := "rest"

  /** The combined layer of a voice: the voice name followed by `combined`, with no separator. */
  function CombinedLayer(voiceName: string): string
  {
    voiceName + "combined"
  }

  /** One `frames.copy` on the combined layer, and what caused it. */
  datatype Copy = PhonemeCopy(phoneme: Phoneme) | RestCopy(at: int)
  {
    /** The layer whose last frame is copied. */
    function Source(): string
    {
      if PhonemeCopy? then phoneme.text else RestLayer
    }

    /** The `frame_number` the copy is given. */
    function Target(): int
    {
      if PhonemeCopy? then phoneme.frame else at
    }
  }

  // ---------------------------------------------------------------------
  // The copy plan
  // ---------------------------------------------------------------------

  /**
   * The rest-gap rule, checked before every phrase and every word: at most
   * one rest copy, always at `last_pos + 1` and so strictly before the start
   * frame, and never with the option off.
   */
  function RestBefore(startFrame: int, restFrames: bool, lastPos: int): (r: seq<Copy>)
    ensures |r| <= 1
    ensures forall k :: 0 <= k < |r| ==> r[k] == RestCopy(lastPos + 1) && lastPos + 1 < startFrame
    ensures !restFrames ==> r == []
  {
    if restFrames && startFrame > lastPos + 1 then [RestCopy(lastPos + 1)] else []
  }

  function PhonemeCopies(phonemes: seq<Phoneme>): (copies: seq<Copy>)
    ensures |copies| == |phonemes|
    ensures forall k :: 0 <= k < |phonemes| ==> copies[k] == PhonemeCopy(phonemes[k])
  {
    if phonemes == [] then []
    else PhonemeCopies(phonemes[..|phonemes| - 1]) + [PhonemeCopy(phonemes[|phonemes| - 1])]
  }

  /** `last_pos` after some phoneme occurrences: the frame of the last one, if any. */
  function PhonemesLast(phonemes: seq<Phoneme>, lastPos: int): int
  {
    if phonemes == [] then lastPos else phonemes[|phonemes| - 1].frame
  }

  /** A word's copies: its rest-gap check, then one copy per phoneme occurrence. */
  function WordPlan(word: Word, restFrames: bool, lastPos: int): seq<Copy>
  {
    RestBefore(word.startFrame, restFrames, lastPos) + PhonemeCopies(word.phonemes)
  }

  function WordsLast(words: seq<Word>, lastPos: int): int
  {
    if words == [] then lastPos
    else PhonemesLast(words[|words| - 1].phonemes, WordsLast(words[..|words| - 1], lastPos))
  }

  /** Some words' copies, word by word, each word seeing the `last_pos` the words before it left. */
  function WordsPlan(words: seq<Word>, restFrames: bool, lastPos: int): seq<Copy>
  {
    if words == [] then []
    else
      var init := words[..|words| - 1];
      WordsPlan(init, restFrames, lastPos) + WordPlan(words[|words| - 1], restFrames, WordsLast(init, lastPos))
  }

  /** A phrase's copies: its own rest-gap check, then its words' copies. */
  function PhrasePlan(phrase: Phrase, restFrames: bool, lastPos: int): seq<Copy>
  {
    RestBefore(phrase.startFrame, restFrames, lastPos) + WordsPlan(phrase.words, restFrames, lastPos)
  }

  function PhrasesLast(phrases: seq<Phrase>, lastPos: int): int
  {
    if phrases == [] then lastPos
    else WordsLast(phrases[|phrases| - 1].words, PhrasesLast(phrases[..|phrases| - 1], lastPos))
  }

  /** Some phrases' copies, phrase by phrase, each seeing the `last_pos` the phrases before it left. */
  function PhrasesPlan(phrases: seq<Phrase>, restFrames: bool, lastPos: int): seq<Copy>
  {
    if phrases == [] then []
    else
      var init := phrases[..|phrases| - 1];
      PhrasesPlan(init, restFrames, lastPos) + PhrasePlan(phrases[|phrases| - 1], restFrames, PhrasesLast(init, lastPos))
  }

  /** What `fill_timeline` copies for one voice, in order. */
  function VoicePlan(voice: Voice, restFrames: bool, lastPos: int): seq<Copy>
  {
    PhrasesPlan(voice.phrases, restFrames, lastPos)
  }

  /**
   * `last_pos` is set once, before the first voice, and carries over from
   * voice to voice: after the loop it is the starting value or the frame of
   * some voice's last occurrence.
   */
  function VoicesLast(voices: seq<Voice>, lastPos: int): (r: int)
    ensures r == lastPos || exists i :: 0 <= i < |voices| && EndsAt(voices[i], r)
  {
    if voices == [] then lastPos
    else
      var n := |voices| - 1;
      var prev := VoicesLast(voices[..n], lastPos);
      VoiceLastPos(voices[n], prev);
      assert forall i :: 0 <= i < n ==> voices[..n][i] == voices[i];
      PhrasesLast(voices[n].phrases, prev)
  }

  /** The voice's last occurrence, in file order, is at `frame`. */
  predicate EndsAt(voice: Voice, frame: int)
  {
    Occurrences(voice) != [] && Occurrences(voice)[|Occurrences(voice)| - 1].frame == frame
  }

  // ---------------------------------------------------------------------
  // Applying the plan to one block's layers
  // ---------------------------------------------------------------------

  /**
   * Every copy of the plan finds its source: a layer with at least one
   * frame, or the combined layer itself once something has been copied onto
   * it. Everything else is a key or index error in the add-on.
   */
  predicate CanApply(layers: Layers, combined: string, copies: seq<Copy>)
  {
    combined in layers &&
    forall i :: 0 <= i < |copies| ==> SourceReady(layers, combined, copies, i)
  }

  /** Copy `i` reads a layer that had a frame to begin with, or the combined layer after an earlier copy. */
  predicate SourceReady(layers: Layers, combined: string, copies: seq<Copy>, i: nat)
    requires i < |copies|
  {
    Readable(layers, copies[i].Source()) || (0 < i && copies[i].Source() == combined)
  }

  /** One copy: the source's last frame, renumbered, appended to the combined layer. */
  function Apply(layers: Layers, combined: string, copy: Copy): Layers
    requires combined in layers && Readable(layers, copy.Source())
  {
    layers[combined := layers[combined] + [Frame(copy.Target(), LastFrame(layers, copy.Source()).content)]]
  }

  /**
   * The copies in order. Only the combined layer changes; it keeps its
   * frames and gains one frame per copy, numbered as the copy says.
   */
  function ApplyCopies(layers: Layers, combined: string, copies: seq<Copy>): (r: Layers)
    requires CanApply(layers, combined, copies)
    ensures r.Keys == layers.Keys
    ensures forall l :: l in layers && l != combined ==> r[l] == layers[l]
    ensures |r[combined]| == |layers[combined]| + |copies|
    ensures r[combined][..|layers[combined]|] == layers[combined]
  {
    if copies == [] then layers
    else
      var n := |copies| - 1;
      var init := copies[..n];
      CanApplyPrefix(layers, combined, init, copies);
      var prev := ApplyCopies(layers, combined, init);
      assert SourceReady(layers, combined, copies, n);
      assert Readable(prev, copies[n].Source());
      var r := Apply(prev, combined, copies[n]);
      assert r[combined][..|prev[combined]|] == prev[combined];
      r
  }

  /** The frame copy `i` appends shows its source's last frame as it was just before copy `i`. */
  lemma {:induction false} ApplyCopiesFrame(layers: Layers, combined: string, copies: seq<Copy>, i: nat)
    requires CanApply(layers, combined, copies) && i < |copies|
    ensures CanApply(layers, combined, copies[..i])
    ensures Readable(ApplyCopies(layers, combined, copies[..i]), copies[i].Source())
    ensures ApplyCopies(layers, combined, copies)[combined][|layers[combined]| + i] ==
      Frame(copies[i].Target(), LastFrame(ApplyCopies(layers, combined, copies[..i]), copies[i].Source()).content)
  {
    var n := |copies| - 1;
    var init := copies[..n];
    ApplyCopiesLast(layers, combined, copies);
    if i < n {
      ApplyCopiesFrame(layers, combined, init, i);
      TakeTake(copies, n, i);
      var prev := ApplyCopies(layers, combined, init);
      ApplyKeepsFrame(prev, combined, copies[n], |layers[combined]| + i);
    } else {
      assert copies[..i] == init;
    }
  }

  /** A prefix of a prefix is a prefix, with the same elements. Kept as a separate generic lemma so that the large proofs using it stay cheap. */
  lemma TakeTake<T>(s: seq<T>, n: nat, i: nat)
    requires i < n <= |s|
    ensures s[..n][..i] == s[..i] && s[..n][i] == s[i]
  {
  }

  /** A copy leaves the frames already on the combined layer where they were. */
  lemma ApplyKeepsFrame(layers: Layers, combined: string, copy: Copy, j: nat)
    requires combined in layers && Readable(layers, copy.Source()) && j < |layers[combined]|
    ensures Apply(layers, combined, copy)[combined][j] == layers[combined][j]
  {
  }

  lemma ApplyCopiesLast(layers: Layers, combined: string, copies: seq<Copy>)
    requires CanApply(layers, combined, copies) && copies != []
    ensures CanApply(layers, combined, copies[..|copies| - 1])
    ensures Readable(ApplyCopies(layers, combined, copies[..|copies| - 1]), copies[|copies| - 1].Source())
    ensures ApplyCopies(layers, combined, copies) ==
      Apply(ApplyCopies(layers, combined, copies[..|copies| - 1]), combined, copies[|copies| - 1])
  {
    CanApplyPrefix(layers, combined, copies[..|copies| - 1], copies);
    assert SourceReady(layers, combined, copies, |copies| - 1);
  }

  lemma ApplyCopiesSnoc(layers: Layers, combined: string, done: seq<Copy>, copy: Copy)
    requires CanApply(layers, combined, done + [copy])
    ensures CanApply(layers, combined, done)
    ensures Readable(ApplyCopies(layers, combined, done), copy.Source())
    ensures ApplyCopies(layers, combined, done + [copy]) == Apply(ApplyCopies(layers, combined, done), combined, copy)
  {
    var next := done + [copy];
    assert next[..|done|] == done && next[|done|] == copy;
    ApplyCopiesLast(layers, combined, next);
  }

  lemma CanApplyPrefix(layers: Layers, combined: string, a: seq<Copy>, b: seq<Copy>)
    requires CanApply(layers, combined, b) && a <= b
    ensures CanApply(layers, combined, a)
  {
    forall i | 0 <= i < |a|
      ensures SourceReady(layers, combined, a, i)
    {
      assert a[i] == b[i] && SourceReady(layers, combined, b, i);
    }
  }

  // ---------------------------------------------------------------------
  // Voices
  // ---------------------------------------------------------------------

  /** `layers[combined].clear()` or `layers.new(combined)`: either way an empty layer. */
  function Cleared(layers: Layers, name: string): Layers
  {
    layers[name := []]
  }

  predicate CanFillVoice(pencils: Pencils, voice: Voice, restFrames: bool, lastPos: int)
  {
    voice.name in pencils &&
    CanApply(Cleared(pencils[voice.name], CombinedLayer(voice.name)), CombinedLayer(voice.name),
             VoicePlan(voice, restFrames, lastPos))
  }

  /**
   * One voice: its combined layer emptied, then its copy plan applied. No
   * block appears, and the combined layer ends with one frame per copy.
   */
  function FillVoice(pencils: Pencils, voice: Voice, restFrames: bool, lastPos: int): (r: Pencils)
    requires CanFillVoice(pencils, voice, restFrames, lastPos)
    ensures r.Keys == pencils.Keys
    ensures var combined := CombinedLayer(voice.name);
      combined in r[voice.name] && |r[voice.name][combined]| == |VoicePlan(voice, restFrames, lastPos)|
  {
    var combined := CombinedLayer(voice.name);
    pencils[voice.name := ApplyCopies(Cleared(pencils[voice.name], combined), combined, VoicePlan(voice, restFrames, lastPos))]
  }

  /** Every voice, with the `last_pos` left by the voices before it, finds the layers it reads. */
  predicate CanFill(pencils: Pencils, voices: seq<Voice>, restFrames: bool, lastPos: int)
  {
    forall i :: 0 <= i < |voices| ==> CanFillVoice(pencils, voices[i], restFrames, VoicesLast(voices[..i], lastPos))
  }

  /** No block appears or disappears, and in each block only the combined layer may differ. */
  predicate OnlyCombinedChanged(before: Pencils, after: Pencils)
  {
    before.Keys == after.Keys &&
    forall b :: b in before ==> Cleared(after[b], CombinedLayer(b)) == Cleared(before[b], CombinedLayer(b))
  }

  lemma FillVoiceChangesOnlyCombined(pencils: Pencils, voice: Voice, restFrames: bool, lastPos: int)
    requires CanFillVoice(pencils, voice, restFrames, lastPos)
    ensures OnlyCombinedChanged(pencils, FillVoice(pencils, voice, restFrames, lastPos))
    ensures forall b :: b in pencils && b != voice.name ==> FillVoice(pencils, voice, restFrames, lastPos)[b] == pencils[b]
  {
    var combined := CombinedLayer(voice.name);
    var cleared := Cleared(pencils[voice.name], combined);
    var filled := ApplyCopies(cleared, combined, VoicePlan(voice, restFrames, lastPos));
    assert Cleared(filled, combined) == cleared;
    assert Cleared(cleared, combined) == cleared;
  }

  lemma CanFillPrefix(pencils: Pencils, voices: seq<Voice>, restFrames: bool, lastPos: int, k: nat)
    requires CanFill(pencils, voices, restFrames, lastPos) && k <= |voices|
    ensures CanFill(pencils, voices[..k], restFrames, lastPos)
  {
    forall i | 0 <= i < k
      ensures CanFillVoice(pencils, voices[..k][i], restFrames, VoicesLast(voices[..k][..i], lastPos))
    {
      assert voices[..k][i] == voices[i] && voices[..k][..i] == voices[..i];
    }
  }

  /** One more voice of the voice loop. */
  lemma FillAllStep(pencils: Pencils, voices: seq<Voice>, restFrames: bool, lastPos: int, i: nat)
    requires CanFill(pencils, voices, restFrames, lastPos) && i < |voices|
    ensures CanFill(pencils, voices[..i], restFrames, lastPos)
    ensures CanFill(pencils, voices[..i + 1], restFrames, lastPos)
    ensures CanFillVoice(FillAll(pencils, voices[..i], restFrames, lastPos), voices[i], restFrames, VoicesLast(voices[..i], lastPos))
    ensures FillAll(pencils, voices[..i + 1], restFrames, lastPos) ==
      FillVoice(FillAll(pencils, voices[..i], restFrames, lastPos), voices[i], restFrames, VoicesLast(voices[..i], lastPos))
    ensures VoicesLast(voices[..i + 1], lastPos) == PhrasesLast(voices[i].phrases, VoicesLast(voices[..i], lastPos))
  {
    CanFillPrefix(pencils, voices, restFrames, lastPos, i);
    CanFillPrefix(pencils, voices, restFrames, lastPos, i + 1);
    var upTo := voices[..i + 1];
    assert upTo[..i] == voices[..i] && upTo[i] == voices[i];
  }

  /** `fill_timeline` on the voice list, as a function of the blocks before it runs. */
  function FillAll(pencils: Pencils, voices: seq<Voice>, restFrames: bool, lastPos: int): (r: Pencils)
    requires CanFill(pencils, voices, restFrames, lastPos)
    ensures OnlyCombinedChanged(pencils, r)
  {
    if voices == [] then pencils
    else
      var n := |voices| - 1;
      var init := voices[..n];
      CanFillPrefix(pencils, voices, restFrames, lastPos, n);
      var prev := FillAll(pencils, init, restFrames, lastPos);
      var last := VoicesLast(init, lastPos);
      assert CanFillVoice(pencils, voices[n], restFrames, last);
      assert CanFillVoice(prev, voices[n], restFrames, last) by {
        var name := voices[n].name;
        assert Cleared(prev[name], CombinedLayer(name)) == Cleared(pencils[name], CombinedLayer(name));
      }
      var r := FillVoice(prev, voices[n], restFrames, last);
      FillVoiceChangesOnlyCombined(prev, voices[n], restFrames, last);
      r
  }

  // ---------------------------------------------------------------------
  // What the plan contains
  // ---------------------------------------------------------------------

  /** The phoneme occurrences a plan places, in plan order. */
  function Placed(copies: seq<Copy>): seq<Phoneme>
  {
    if copies == [] then []
    else
      var last := copies[|copies| - 1];
      Placed(copies[..|copies| - 1]) + (if last.PhonemeCopy? then [last.phoneme] else [])
  }

  lemma {:induction false} PlacedAppend(a: seq<Copy>, b: seq<Copy>)
    ensures Placed(a + b) == Placed(a) + Placed(b)
  {
    if b == [] {
      assert a + b == a;
    } else {
      var n := |b| - 1;
      assert (a + b)[..|a| + n] == a + b[..n];
      PlacedAppend(a, b[..n]);
    }
  }

  lemma {:induction false} PlacedPhonemeCopies(phonemes: seq<Phoneme>)
    ensures Placed(PhonemeCopies(phonemes)) == phonemes
  {
    if phonemes != [] {
      var n := |phonemes| - 1;
      PlacedPhonemeCopies(phonemes[..n]);
      PlacedAppend(PhonemeCopies(phonemes[..n]), [PhonemeCopy(phonemes[n])]);
      assert [PhonemeCopy(phonemes[n])][..0] == [];
    }
  }

  lemma PlacedWord(word: Word, restFrames: bool, lastPos: int)
    ensures Placed(WordPlan(word, restFrames, lastPos)) == word.phonemes
  {
    var rest := RestBefore(word.startFrame, restFrames, lastPos);
    PlacedAppend(rest, PhonemeCopies(word.phonemes));
    PlacedPhonemeCopies(word.phonemes);
    if rest != [] {
      assert rest[..0] == [];
    }
  }

  lemma {:induction false} PlacedWords(words: seq<Word>, restFrames: bool, lastPos: int)
    ensures Placed(WordsPlan(words, restFrames, lastPos)) == WordsPhonemes(words)
  {
    if words != [] {
      var init := words[..|words| - 1];
      PlacedWords(init, restFrames, lastPos);
      PlacedWord(words[|words| - 1], restFrames, WordsLast(init, lastPos));
      PlacedAppend(WordsPlan(init, restFrames, lastPos), WordPlan(words[|words| - 1], restFrames, WordsLast(init, lastPos)));
    }
  }

  lemma {:induction false} PlacedPhrases(phrases: seq<Phrase>, restFrames: bool, lastPos: int)
    ensures Placed(PhrasesPlan(phrases, restFrames, lastPos)) == PhrasesPhonemes(phrases)
  {
    if phrases != [] {
      var init, phrase := phrases[..|phrases| - 1], phrases[|phrases| - 1];
      var last := PhrasesLast(init, lastPos);
      var rest := RestBefore(phrase.startFrame, restFrames, last);
      PlacedPhrases(init, restFrames, lastPos);
      PlacedWords(phrase.words, restFrames, last);
      PlacedAppend(rest, WordsPlan(phrase.words, restFrames, last));
      if rest != [] {
        assert rest[..0] == [];
      }
      PlacedAppend(PhrasesPlan(init, restFrames, lastPos), PhrasePlan(phrase, restFrames, last));
    }
  }

  /**
   * Whether or not rest frames are enabled, the plan places every phoneme
   * occurrence of the voice exactly once, in phrase, word, phoneme order.
   */
  lemma PlanPlacesEveryOccurrence(voice: Voice, restFrames: bool, lastPos: int)
    ensures Placed(VoicePlan(voice, restFrames, lastPos)) == Occurrences(voice)
  {
    PlacedPhrases(voice.phrases, restFrames, lastPos);
  }

  lemma PhonemeCopiesAppend(a: seq<Phoneme>, b: seq<Phoneme>)
    ensures PhonemeCopies(a + b) == PhonemeCopies(a) + PhonemeCopies(b)
  {
    assert forall k :: 0 <= k < |b| ==> (a + b)[|a| + k] == b[k];
    assert forall k :: 0 <= k < |a| ==> (a + b)[k] == a[k];
  }

  lemma {:induction false} RestOffWords(words: seq<Word>, lastPos: int)
    ensures WordsPlan(words, false, lastPos) == PhonemeCopies(WordsPhonemes(words))
  {
    if words != [] {
      var init := words[..|words| - 1];
      RestOffWords(init, lastPos);
      PhonemeCopiesAppend(WordsPhonemes(init), words[|words| - 1].phonemes);
    }
  }

  lemma {:induction false} RestOffPhrases(phrases: seq<Phrase>, lastPos: int)
    ensures PhrasesPlan(phrases, false, lastPos) == PhonemeCopies(PhrasesPhonemes(phrases))
  {
    if phrases != [] {
      var init, phrase := phrases[..|phrases| - 1], phrases[|phrases| - 1];
      RestOffPhrases(init, lastPos);
      RestOffWords(phrase.words, PhrasesLast(init, lastPos));
      PhonemeCopiesAppend(PhrasesPhonemes(init), WordsPhonemes(phrase.words));
    }
  }

  /** How many times the rest-gap rule is checked: once per phrase and once per word. */
  function GapChecks(phrases: seq<Phrase>): nat
  {
    if phrases == [] then 0 else GapChecks(phrases[..|phrases| - 1]) + 1 + |phrases[|phrases| - 1].words|
  }

  /** Some words' copies: one per occurrence, plus at most one rest copy per word. */
  lemma {:induction false} WordsPlanSize(words: seq<Word>, restFrames: bool, lastPos: int)
    ensures |WordsPhonemes(words)| <= |WordsPlan(words, restFrames, lastPos)| <= |WordsPhonemes(words)| + |words|
  {
    if words != [] {
      var init := words[..|words| - 1];
      WordsPlanSize(init, restFrames, lastPos);
      assert |RestBefore(words[|words| - 1].startFrame, restFrames, WordsLast(init, lastPos))| <= 1;
    }
  }

  /** Some phrases' copies: one per occurrence, plus at most one rest copy per gap check. */
  lemma {:induction false} PhrasesPlanSize(phrases: seq<Phrase>, restFrames: bool, lastPos: int)
    ensures |PhrasesPhonemes(phrases)| <= |PhrasesPlan(phrases, restFrames, lastPos)| <= |PhrasesPhonemes(phrases)| + GapChecks(phrases)
  {
    if phrases != [] {
      var init, phrase := phrases[..|phrases| - 1], phrases[|phrases| - 1];
      PhrasesPlanSize(init, restFrames, lastPos);
      WordsPlanSize(phrase.words, restFrames, PhrasesLast(init, lastPos));
      assert |RestBefore(phrase.startFrame, restFrames, PhrasesLast(init, lastPos))| <= 1;
    }
  }

  /**
   * A voice's plan holds one copy per occurrence and at most one rest copy
   * per gap check (one per phrase and one per word), whatever the option and
   * `last_pos` are.
   */
  lemma VoicePlanSize(voice: Voice, restFrames: bool, lastPos: int)
    ensures |Occurrences(voice)| <= |VoicePlan(voice, restFrames, lastPos)| <= |Occurrences(voice)| + GapChecks(voice.phrases)
  {
    PhrasesPlanSize(voice.phrases, restFrames, lastPos);
  }

  /**
   * With rest frames disabled the plan is one phoneme copy per occurrence,
   * in file order, and no rest copy at all, whatever `last_pos` is.
   */
  lemma RestOffPlan(voice: Voice, lastPos: int)
    ensures VoicePlan(voice, false, lastPos) == PhonemeCopies(Occurrences(voice))
    ensures forall i :: 0 <= i < |VoicePlan(voice, false, lastPos)| ==> VoicePlan(voice, false, lastPos)[i].PhonemeCopy?
  {
    RestOffPhrases(voice.phrases, lastPos);
  }

  lemma {:induction false} WordsLastIsLastOccurrence(words: seq<Word>, lastPos: int)
    ensures WordsLast(words, lastPos) == PhonemesLast(WordsPhonemes(words), lastPos)
  {
    if words != [] {
      WordsLastIsLastOccurrence(words[..|words| - 1], lastPos);
    }
  }

  lemma {:induction false} PhrasesLastIsLastOccurrence(phrases: seq<Phrase>, lastPos: int)
    ensures PhrasesLast(phrases, lastPos) == PhonemesLast(PhrasesPhonemes(phrases), lastPos)
  {
    if phrases != [] {
      var init, phrase := phrases[..|phrases| - 1], phrases[|phrases| - 1];
      PhrasesLastIsLastOccurrence(init, lastPos);
      WordsLastIsLastOccurrence(phrase.words, PhrasesLast(init, lastPos));
      WordsLastIsLastOccurrence(phrase.words, lastPos);
    }
  }

  /** After a voice, `last_pos` is the frame of its last phoneme occurrence, or unchanged when it has none. */
  lemma VoiceLastPos(voice: Voice, lastPos: int)
    ensures PhrasesLast(voice.phrases, lastPos) ==
      if Occurrences(voice) == [] then lastPos else Occurrences(voice)[|Occurrences(voice)| - 1].frame
  {
    PhrasesLastIsLastOccurrence(voice.phrases, lastPos);
  }

  /** Every rest copy lands one frame after the last occurrence placed before it (or after the initial `last_pos`). */
  predicate RestFollowsLast(copies: seq<Copy>, lastPos: int)
  {
    forall i :: 0 <= i < |copies| ==> RestAt(copies, lastPos, i)
  }

  predicate RestAt(copies: seq<Copy>, lastPos: int, i: nat)
    requires i < |copies|
  {
    copies[i].RestCopy? ==> copies[i].at == PhonemesLast(Placed(copies[..i]), lastPos) + 1
  }

  lemma PhonemesLastAppend(a: seq<Phoneme>, b: seq<Phoneme>, lastPos: int)
    ensures PhonemesLast(a + b, lastPos) == PhonemesLast(b, PhonemesLast(a, lastPos))
  {
  }

  lemma RestAtLeft(a: seq<Copy>, b: seq<Copy>, lastPos: int, i: nat)
    requires i < |a|
    ensures RestAt(a + b, lastPos, i) == RestAt(a, lastPos, i)
  {
    assert (a + b)[..i] == a[..i];
  }

  lemma RestAtRight(a: seq<Copy>, b: seq<Copy>, lastPos: int, j: nat)
    requires j < |b|
    ensures RestAt(a + b, lastPos, |a| + j) == RestAt(b, PhonemesLast(Placed(a), lastPos), j)
  {
    assert (a + b)[..|a| + j] == a + b[..j];
    PlacedAppend(a, b[..j]);
    PhonemesLastAppend(Placed(a), Placed(b[..j]), lastPos);
  }

  lemma RestFollowsLastAppend(a: seq<Copy>, b: seq<Copy>, lastPos: int)
    requires RestFollowsLast(a, lastPos)
    requires RestFollowsLast(b, PhonemesLast(Placed(a), lastPos))
    ensures RestFollowsLast(a + b, lastPos)
  {
    forall i | 0 <= i < |a + b|
      ensures RestAt(a + b, lastPos, i)
    {
      RestAtAppend(a, b, lastPos, i);
    }
  }

  lemma RestAtAppend(a: seq<Copy>, b: seq<Copy>, lastPos: int, i: nat)
    requires i < |a + b|
    requires i < |a| ==> RestAt(a, lastPos, i)
    requires |a| <= i ==> RestAt(b, PhonemesLast(Placed(a), lastPos), i - |a|)
    ensures RestAt(a + b, lastPos, i)
  {
    if i < |a| {
      RestAtAppendLeft(a, b, lastPos, i);
    } else {
      RestAtAppendRight(a, b, lastPos, i - |a|);
    }
  }

  lemma RestAtAppendLeft(a: seq<Copy>, b: seq<Copy>, lastPos: int, i: nat)
    requires i < |a| && RestAt(a, lastPos, i)
    ensures RestAt(a + b, lastPos, i)
  {
    RestAtLeft(a, b, lastPos, i);
  }

  lemma RestAtAppendRight(a: seq<Copy>, b: seq<Copy>, lastPos: int, j: nat)
    requires j < |b| && RestAt(b, PhonemesLast(Placed(a), lastPos), j)
    ensures RestAt(a + b, lastPos, |a| + j)
  {
    RestAtRight(a, b, lastPos, j);
  }

  lemma RestFollowsLastWord(word: Word, restFrames: bool, lastPos: int)
    ensures RestFollowsLast(WordPlan(word, restFrames, lastPos), lastPos)
  {
    var rest := RestBefore(word.startFrame, restFrames, lastPos);
    if rest != [] {
      assert Placed(rest[..0]) == [];
    }
    assert RestFollowsLast(PhonemeCopies(word.phonemes), PhonemesLast(Placed(rest), lastPos));
    RestFollowsLastAppend(rest, PhonemeCopies(word.phonemes), lastPos);
  }

  lemma {:induction false} RestFollowsLastWords(words: seq<Word>, restFrames: bool, lastPos: int)
    ensures RestFollowsLast(WordsPlan(words, restFrames, lastPos), lastPos)
  {
    if words != [] {
      var init := words[..|words| - 1];
      var last := WordsLast(init, lastPos);
      RestFollowsLastWords(init, restFrames, lastPos);
      RestFollowsLastWord(words[|words| - 1], restFrames, last);
      PlacedWords(init, restFrames, lastPos);
      WordsLastIsLastOccurrence(init, lastPos);
      RestFollowsLastAppend(WordsPlan(init, restFrames, lastPos), WordPlan(words[|words| - 1], restFrames, last), lastPos);
    }
  }

  lemma RestFollowsLastPhrase(phrase: Phrase, restFrames: bool, lastPos: int)
    ensures RestFollowsLast(PhrasePlan(phrase, restFrames, lastPos), lastPos)
  {
    var rest := RestBefore(phrase.startFrame, restFrames, lastPos);
    if rest != [] {
      assert Placed(rest[..0]) == [];
    }
    RestFollowsLastWords(phrase.words, restFrames, lastPos);
    assert PhonemesLast(Placed(rest), lastPos) == lastPos;
    RestFollowsLastAppend(rest, WordsPlan(phrase.words, restFrames, lastPos), lastPos);
  }

  lemma {:induction false} RestFollowsLastPhrases(phrases: seq<Phrase>, restFrames: bool, lastPos: int)
    ensures RestFollowsLast(PhrasesPlan(phrases, restFrames, lastPos), lastPos)
  {
    if phrases != [] {
      var init := phrases[..|phrases| - 1];
      var last := PhrasesLast(init, lastPos);
      RestFollowsLastPhrases(init, restFrames, lastPos);
      RestFollowsLastPhrase(phrases[|phrases| - 1], restFrames, last);
      PlacedPhrases(init, restFrames, lastPos);
      PhrasesLastIsLastOccurrence(init, lastPos);
      RestFollowsLastAppend(PhrasesPlan(init, restFrames, lastPos), PhrasePlan(phrases[|phrases| - 1], restFrames, last), lastPos);
    }
  }

  /**
   * A rest copy is made at `last_pos + 1` with the `last_pos` current at
   * that point: one frame after the last occurrence placed before it in the
   * walk, or after the `last_pos` the voice started with.
   */
  lemma RestCopiesFollowLastPos(voice: Voice, restFrames: bool, lastPos: int)
    ensures RestFollowsLast(VoicePlan(voice, restFrames, lastPos), lastPos)
  {
    RestFollowsLastPhrases(voice.phrases, restFrames, lastPos);
  }

  /** A word is preceded by a rest copy exactly when the option is on and the word starts past `last_pos + 1`. */
  lemma WordRestIff(word: Word, restFrames: bool, lastPos: int)
    ensures (exists i :: 0 <= i < |WordPlan(word, restFrames, lastPos)| && WordPlan(word, restFrames, lastPos)[i].RestCopy?)
        <==> restFrames && word.startFrame > lastPos + 1
    ensures restFrames && word.startFrame > lastPos + 1 ==> WordPlan(word, restFrames, lastPos)[0] == RestCopy(lastPos + 1)
  {
    var plan := WordPlan(word, restFrames, lastPos);
    if restFrames && word.startFrame > lastPos + 1 {
      assert plan[0].RestCopy?;
    } else {
      assert plan == PhonemeCopies(word.phonemes);
    }
  }

  /**
   * A phrase adds one copy of its own, a rest copy at `last_pos + 1` ahead
   * of its words' copies, exactly when the option is on and the phrase
   * starts past `last_pos + 1`; otherwise it adds only its words' copies.
   */
  lemma PhraseRestIff(phrase: Phrase, restFrames: bool, lastPos: int)
    ensures var plan, words := PhrasePlan(phrase, restFrames, lastPos), WordsPlan(phrase.words, restFrames, lastPos);
      |words| <= |plan| && plan[|plan| - |words|..] == words &&
      (|plan| == |words| + 1 <==> restFrames && phrase.startFrame > lastPos + 1) &&
      (|plan| != |words| ==> |plan| == |words| + 1 && plan[0] == RestCopy(lastPos + 1))
  {
  }

  /**
   * The phrase check and the check of the phrase's first word look at the
   * same `last_pos`: when both fire, the combined layer gets two rest copies
   * numbered `last_pos + 1`, one after the other.
   */
  lemma PhraseGapRestsTwice(phrase: Phrase, restFrames: bool, lastPos: int)
    requires restFrames && phrase.startFrame > lastPos + 1
    requires phrase.words != [] && phrase.words[0].startFrame > lastPos + 1
    ensures |PhrasePlan(phrase, restFrames, lastPos)| >= 2
    ensures PhrasePlan(phrase, restFrames, lastPos)[..2] == [RestCopy(lastPos + 1), RestCopy(lastPos + 1)]
  {
    var words := phrase.words;
    var rest := RestCopy(lastPos + 1);
    var plan, wordsPlan := PhrasePlan(phrase, restFrames, lastPos), WordsPlan(words, restFrames, lastPos);
    var first := WordPlan(words[0], restFrames, lastPos);
    assert first[0] == rest by {
      assert RestBefore(words[0].startFrame, restFrames, lastPos) == [rest];
    }
    assert wordsPlan[0] == rest by {
      WordsPlanPrefix(words, 1, restFrames, lastPos);
      assert words[..1][..0] == [];
      assert WordsPlan(words[..1], restFrames, lastPos) == first;
    }
    assert plan == [rest] + wordsPlan;
    assert plan[..2] == [plan[0], plan[1]];
  }

  /**
   * A legacy project with one word holding `AI` at 0 and `E` at 10: `AI`
   * then `E` are copied, and no rest copy is made even with the option on,
   * because the gap check runs before a word, not between its phonemes.
   */
  lemma OneWordScenario(restFrames: bool)
    ensures var words := [Word(0, [Phoneme("AI", 0), Phoneme("E", 10)])];
      VoicePlan(Voice("Voice1", ["AI", "E"], [Phrase(0, words)]), restFrames, 0) ==
        [PhonemeCopy(Phoneme("AI", 0)), PhonemeCopy(Phoneme("E", 10))]
  {
    var ai, e := Phoneme("AI", 0), Phoneme("E", 10);
    var word := Word(0, [ai, e]);
    assert [ai, e][..1] == [ai];
    assert PhonemeCopies([ai, e]) == [PhonemeCopy(ai), PhonemeCopy(e)];
    assert WordPlan(word, restFrames, 0) == [PhonemeCopy(ai), PhonemeCopy(e)];
    assert [word][..0] == [];
    assert WordsPlan([word], restFrames, 0) == WordPlan(word, restFrames, 0);
    assert PhrasePlan(Phrase(0, [word]), restFrames, 0) == WordsPlan([word], restFrames, 0);
    assert [Phrase(0, [word])][..0] == [];
    assert PhrasesPlan([Phrase(0, [word])], restFrames, 0) == PhrasePlan(Phrase(0, [word]), restFrames, 0);
    assert VoicePlan(Voice("Voice1", ["AI", "E"], [Phrase(0, [word])]), restFrames, 0) == [PhonemeCopy(ai), PhonemeCopy(e)];
  }

  /** The same phonemes in two words, the second starting at 5: with the option on, a rest copy at 1 comes between them. */
  lemma TwoWordScenario()
    ensures var words := [Word(0, [Phoneme("AI", 0)]), Word(5, [Phoneme("E", 10)])];
      VoicePlan(Voice("Voice1", ["AI", "E"], [Phrase(0, words)]), true, 0) ==
        [PhonemeCopy(Phoneme("AI", 0)), RestCopy(1), PhonemeCopy(Phoneme("E", 10))]
  {
    var ai, e := Phoneme("AI", 0), Phoneme("E", 10);
    var words := [Word(0, [ai]), Word(5, [e])];
    assert [ai][..0] == [] && [e][..0] == [];
    assert words[..1] == [Word(0, [ai])] && words[..1][..0] == [];
    assert WordsLast(words[..1], 0) == 0;
    assert WordsPlan(words[..1], true, 0) == [PhonemeCopy(ai)];
    assert [Phrase(0, words)][..0] == [];
  }

  // ---------------------------------------------------------------------
  // The combined layer afterwards
  // ---------------------------------------------------------------------

  lemma PlanSources(voice: Voice, restFrames: bool, lastPos: int, i: nat)
    requires i < |VoicePlan(voice, restFrames, lastPos)|
    ensures VoicePlan(voice, restFrames, lastPos)[i].Source() == RestLayer ||
            exists k :: 0 <= k < |Occurrences(voice)| && Occurrences(voice)[k].text == VoicePlan(voice, restFrames, lastPos)[i].Source()
  {
    var plan := VoicePlan(voice, restFrames, lastPos);
    if plan[i].PhonemeCopy? {
      PlanPlacesEveryOccurrence(voice, restFrames, lastPos);
      assert plan == plan[..i] + plan[i..];
      assert plan[i..] == [plan[i]] + plan[i + 1..];
      PlacedAppend(plan[..i], plan[i..]);
      PlacedAppend([plan[i]], plan[i + 1..]);
      assert [plan[i]][..0] == [];
      assert Placed(plan)[|Placed(plan[..i])|] == plan[i].phoneme;
    }
  }

  /**
   * When no occurrence is the combined layer's own name, the combined layer
   * holds exactly one frame per planned copy, in plan order: copy `i` at
   * its target frame, showing the last frame of its source layer as it was
   * before the fill.
   */
  lemma FilledCombinedLayer(pencils: Pencils, voice: Voice, restFrames: bool, lastPos: int)
    requires CanFillVoice(pencils, voice, restFrames, lastPos)
    requires forall k :: 0 <= k < |Occurrences(voice)| ==> Occurrences(voice)[k].text != CombinedLayer(voice.name)
    ensures var plan := VoicePlan(voice, restFrames, lastPos);
      var combined := FillVoice(pencils, voice, restFrames, lastPos)[voice.name][CombinedLayer(voice.name)];
      |combined| == |plan| &&
      forall i :: 0 <= i < |plan| ==>
        Readable(pencils[voice.name], plan[i].Source()) &&
        combined[i] == Frame(plan[i].Target(), LastFrame(pencils[voice.name], plan[i].Source()).content)
  {
    var plan := VoicePlan(voice, restFrames, lastPos);
    forall i | 0 <= i < |plan|
      ensures Readable(pencils[voice.name], plan[i].Source())
      ensures FillVoice(pencils, voice, restFrames, lastPos)[voice.name][CombinedLayer(voice.name)][i] ==
        Frame(plan[i].Target(), LastFrame(pencils[voice.name], plan[i].Source()).content)
    {
      FilledFrame(pencils, voice, restFrames, lastPos, i);
    }
  }

  /** Frame `i` of the filled combined layer, for an occurrence list that never names the combined layer. */
  lemma FilledFrame(pencils: Pencils, voice: Voice, restFrames: bool, lastPos: int, i: nat)
    requires CanFillVoice(pencils, voice, restFrames, lastPos)
    requires forall k :: 0 <= k < |Occurrences(voice)| ==> Occurrences(voice)[k].text != CombinedLayer(voice.name)
    requires i < |VoicePlan(voice, restFrames, lastPos)|
    ensures Readable(pencils[voice.name], VoicePlan(voice, restFrames, lastPos)[i].Source())
    ensures FillVoice(pencils, voice, restFrames, lastPos)[voice.name][CombinedLayer(voice.name)][i] ==
      Frame(VoicePlan(voice, restFrames, lastPos)[i].Target(),
            LastFrame(pencils[voice.name], VoicePlan(voice, restFrames, lastPos)[i].Source()).content)
  {
    var plan := VoicePlan(voice, restFrames, lastPos);
    var name := CombinedLayer(voice.name);
    PlanAvoidsCombined(voice, restFrames, lastPos, i);
    FilledFrameOf(pencils, voice.name, name, plan, i);
  }

  /** When no occurrence is named like the combined layer, no copy of the plan reads it. */
  lemma PlanAvoidsCombined(voice: Voice, restFrames: bool, lastPos: int, i: nat)
    requires forall k :: 0 <= k < |Occurrences(voice)| ==> Occurrences(voice)[k].text != CombinedLayer(voice.name)
    requires i < |VoicePlan(voice, restFrames, lastPos)|
    ensures VoicePlan(voice, restFrames, lastPos)[i].Source() != CombinedLayer(voice.name)
  {
    PlanSources(voice, restFrames, lastPos, i);
    assert |RestLayer| < |CombinedLayer(voice.name)|;
  }

  /** `FilledFrame` for any plan whose copy `i` does not read the combined layer. */
  lemma FilledFrameOf(pencils: Pencils, block: string, combined: string, copies: seq<Copy>, i: nat)
    requires block in pencils && i < |copies| && copies[i].Source() != combined
    requires CanApply(Cleared(pencils[block], combined), combined, copies)
    ensures Readable(pencils[block], copies[i].Source())
    ensures pencils[block := ApplyCopies(Cleared(pencils[block], combined), combined, copies)][block][combined][i] ==
      Frame(copies[i].Target(), LastFrame(pencils[block], copies[i].Source()).content)
  {
    var layers, source := pencils[block], copies[i].Source();
    var cleared := Cleared(layers, combined);
    AppliedFrame(cleared, combined, copies, i);
    assert |cleared[combined]| == 0 && LastFrame(cleared, source) == LastFrame(layers, source);
  }

  /** A copy that does not read the combined layer shows the last frame its source had to begin with. */
  lemma AppliedFrame(layers: Layers, combined: string, copies: seq<Copy>, i: nat)
    requires CanApply(layers, combined, copies) && i < |copies|
    requires copies[i].Source() != combined
    ensures Readable(layers, copies[i].Source())
    ensures ApplyCopies(layers, combined, copies)[combined][|layers[combined]| + i] ==
      Frame(copies[i].Target(), LastFrame(layers, copies[i].Source()).content)
  {
    ApplyCopiesFrame(layers, combined, copies, i);
    assert ApplyCopies(layers, combined, copies[..i])[copies[i].Source()] == layers[copies[i].Source()];
  }

  /**
   * With rest frames disabled the combined layer ends up with exactly one
   * frame per phoneme occurrence, in phrase, word, phoneme order: frame `i`
   * is numbered as occurrence `i` and shows the last frame of that
   * phoneme's layer.
   */
  lemma RestOffCombinedLayer(pencils: Pencils, voice: Voice, lastPos: int)
    requires CanFillVoice(pencils, voice, false, lastPos)
    requires forall k :: 0 <= k < |Occurrences(voice)| ==> Occurrences(voice)[k].text != CombinedLayer(voice.name)
    ensures var occurrences := Occurrences(voice);
      var combined := FillVoice(pencils, voice, false, lastPos)[voice.name][CombinedLayer(voice.name)];
      |combined| == |occurrences| &&
      forall i :: 0 <= i < |occurrences| ==>
        Readable(pencils[voice.name], occurrences[i].text) &&
        combined[i] == Frame(occurrences[i].frame, LastFrame(pencils[voice.name], occurrences[i].text).content)
  {
    RestOffPlan(voice, lastPos);
    FilledCombinedLayer(pencils, voice, false, lastPos);
  }

  // ---------------------------------------------------------------------
  // The combined layers after the voice loop
  // ---------------------------------------------------------------------

  /** A block that no voice is named after comes out of the fill exactly as it went in. */
  lemma {:induction false} FillAllUntouched(pencils: Pencils, voices: seq<Voice>, restFrames: bool, lastPos: int, b: string)
    requires CanFill(pencils, voices, restFrames, lastPos) && b in pencils
    requires forall i :: 0 <= i < |voices| ==> voices[i].name != b
    ensures FillAll(pencils, voices, restFrames, lastPos)[b] == pencils[b]
  {
    if voices != [] {
      var n := |voices| - 1;
      CanFillPrefix(pencils, voices, restFrames, lastPos, n);
      FillAllUntouched(pencils, voices[..n], restFrames, lastPos, b);
      FillAllStep(pencils, voices, restFrames, lastPos, n);
      assert voices[..n + 1] == voices;
      FillVoiceChangesOnlyCombined(FillAll(pencils, voices[..n], restFrames, lastPos), voices[n], restFrames, VoicesLast(voices[..n], lastPos));
    }
  }

  /** Voices after voice `i` with other names leave voice `i`'s block as voice `i` left it. */
  lemma FillAllLater(pencils: Pencils, voices: seq<Voice>, restFrames: bool, lastPos: int, i: nat, j: nat)
    requires CanFill(pencils, voices, restFrames, lastPos) && i < j <= |voices|
    requires forall k :: i < k < |voices| ==> voices[k].name != voices[i].name
    ensures CanFill(pencils, voices[..i + 1], restFrames, lastPos) && CanFill(pencils, voices[..j], restFrames, lastPos)
    ensures voices[i].name in FillAll(pencils, voices[..i + 1], restFrames, lastPos)
    ensures FillAll(pencils, voices[..j], restFrames, lastPos)[voices[i].name] ==
      FillAll(pencils, voices[..i + 1], restFrames, lastPos)[voices[i].name]
  {
    var name := voices[i].name;
    FillAllStep(pencils, voices, restFrames, lastPos, i);
    var block := FillAll(pencils, voices[..i + 1], restFrames, lastPos)[name];
    var n := i + 1;
    while n < j
      invariant i < n <= j
      invariant CanFill(pencils, voices[..n], restFrames, lastPos)
      invariant name in FillAll(pencils, voices[..n], restFrames, lastPos)
      invariant FillAll(pencils, voices[..n], restFrames, lastPos)[name] == block
    {
      FillAllKeepsBlock(pencils, voices, restFrames, lastPos, n + 1, name);
      n := n + 1;
    }
    assert n == j;
  }

  /** Voice `j - 1` leaves every block not named after it as the voices before it left it. */
  lemma FillAllKeepsBlock(pencils: Pencils, voices: seq<Voice>, restFrames: bool, lastPos: int, j: nat, name: string)
    requires CanFill(pencils, voices, restFrames, lastPos) && 0 < j <= |voices| && voices[j - 1].name != name
    ensures CanFill(pencils, voices[..j - 1], restFrames, lastPos) && CanFill(pencils, voices[..j], restFrames, lastPos)
    ensures name in FillAll(pencils, voices[..j - 1], restFrames, lastPos) ==>
      name in FillAll(pencils, voices[..j], restFrames, lastPos) &&
      FillAll(pencils, voices[..j], restFrames, lastPos)[name] == FillAll(pencils, voices[..j - 1], restFrames, lastPos)[name]
  {
    var m := j - 1;
    FillAllStep(pencils, voices, restFrames, lastPos, m);
    assert voices[..m + 1] == voices[..j];
    var prev := FillAll(pencils, voices[..m], restFrames, lastPos);
    FillVoiceChangesOnlyCombined(prev, voices[m], restFrames, VoicesLast(voices[..m], lastPos));
  }

  /**
   * After the whole voice loop, the block of a voice whose name no later
   * voice repeats is what filling that voice left: `FillVoice` on the blocks
   * the earlier voices left, with the `last_pos` they left.
   */
  lemma VoiceBlockAfterAll(pencils: Pencils, voices: seq<Voice>, restFrames: bool, lastPos: int, i: nat)
    requires CanFill(pencils, voices, restFrames, lastPos) && i < |voices|
    requires forall k :: i < k < |voices| ==> voices[k].name != voices[i].name
    ensures CanFill(pencils, voices[..i], restFrames, lastPos)
    ensures CanFillVoice(FillAll(pencils, voices[..i], restFrames, lastPos), voices[i], restFrames, VoicesLast(voices[..i], lastPos))
    ensures FillAll(pencils, voices, restFrames, lastPos)[voices[i].name] ==
      FillVoice(FillAll(pencils, voices[..i], restFrames, lastPos), voices[i], restFrames, VoicesLast(voices[..i], lastPos))[voices[i].name]
  {
    FillAllStep(pencils, voices, restFrames, lastPos, i);
    FillAllLater(pencils, voices, restFrames, lastPos, i, |voices|);
    assert voices[..|voices|] == voices;
  }

  /** Two layer maps that agree off `combined` agree on every other layer. */
  lemma AgreeOffCombined(a: Layers, b: Layers, combined: string, source: string)
    requires Cleared(a, combined) == Cleared(b, combined) && source != combined
    ensures Readable(a, source) == Readable(b, source)
    ensures Readable(a, source) ==> LastFrame(a, source) == LastFrame(b, source)
  {
    assert (source in a) == (source in Cleared(a, combined));
    assert (source in b) == (source in Cleared(b, combined));
    if source in a {
      assert a[source] == Cleared(a, combined)[source];
      assert b[source] == Cleared(b, combined)[source];
    }
  }

  /**
   * The fill as a whole: for a voice whose name no later voice repeats and
   * none of whose occurrences is named like its combined layer, the combined
   * layer ends up with exactly one frame per copy of the voice's plan (with
   * the `last_pos` the earlier voices left), copy `k` at its target frame,
   * showing the last frame its source layer had before the fill began.
   */
  lemma FilledVoiceCombined(pencils: Pencils, voices: seq<Voice>, restFrames: bool, lastPos: int, i: nat)
    requires CanFill(pencils, voices, restFrames, lastPos) && i < |voices|
    requires forall k :: i < k < |voices| ==> voices[k].name != voices[i].name
    requires forall k :: 0 <= k < |Occurrences(voices[i])| ==> Occurrences(voices[i])[k].text != CombinedLayer(voices[i].name)
    ensures voices[i].name in pencils
    ensures voices[i].name in FillAll(pencils, voices, restFrames, lastPos) &&
      CombinedLayer(voices[i].name) in FillAll(pencils, voices, restFrames, lastPos)[voices[i].name]
    ensures var plan := VoicePlan(voices[i], restFrames, VoicesLast(voices[..i], lastPos));
      var combined := FillAll(pencils, voices, restFrames, lastPos)[voices[i].name][CombinedLayer(voices[i].name)];
      |combined| == |plan| &&
      forall k :: 0 <= k < |plan| ==>
        Readable(pencils[voices[i].name], plan[k].Source()) &&
        combined[k] == Frame(plan[k].Target(), LastFrame(pencils[voices[i].name], plan[k].Source()).content)
  {
    var voice, last := voices[i], VoicesLast(voices[..i], lastPos);
    var name, combinedName := voice.name, CombinedLayer(voice.name);
    var plan := VoicePlan(voice, restFrames, last);
    assert CanFillVoice(pencils, voices[i], restFrames, VoicesLast(voices[..i], lastPos));
    VoiceBlockAfterAll(pencils, voices, restFrames, lastPos, i);
    var prev := FillAll(pencils, voices[..i], restFrames, lastPos);
    assert Cleared(prev[name], combinedName) == Cleared(pencils[name], combinedName);
    FilledCombinedLayer(prev, voice, restFrames, last);
    forall k | 0 <= k < |plan|
      ensures Readable(pencils[name], plan[k].Source())
      ensures LastFrame(prev[name], plan[k].Source()) == LastFrame(pencils[name], plan[k].Source())
    {
      PlanAvoidsCombined(voice, restFrames, last, k);
      AgreeOffCombined(prev[name], pencils[name], combinedName, plan[k].Source());
    }
  }

  /**
   * With rest frames disabled: every such voice's combined layer ends up
   * with exactly one frame per occurrence of the voice, in phrase, word,
   * phoneme order, frame `k` numbered as occurrence `k` and showing the
   * last frame of that phoneme's layer from before the fill.
   */
  lemma RestOffFilledVoice(pencils: Pencils, voices: seq<Voice>, lastPos: int, i: nat)
    requires CanFill(pencils, voices, false, lastPos) && i < |voices|
    requires forall k :: i < k < |voices| ==> voices[k].name != voices[i].name
    requires forall k :: 0 <= k < |Occurrences(voices[i])| ==> Occurrences(voices[i])[k].text != CombinedLayer(voices[i].name)
    ensures voices[i].name in pencils
    ensures voices[i].name in FillAll(pencils, voices, false, lastPos) &&
      CombinedLayer(voices[i].name) in FillAll(pencils, voices, false, lastPos)[voices[i].name]
    ensures var occurrences := Occurrences(voices[i]);
      var combined := FillAll(pencils, voices, false, lastPos)[voices[i].name][CombinedLayer(voices[i].name)];
      |combined| == |occurrences| &&
      forall k :: 0 <= k < |occurrences| ==>
        Readable(pencils[voices[i].name], occurrences[k].text) &&
        combined[k] == Frame(occurrences[k].frame, LastFrame(pencils[voices[i].name], occurrences[k].text).content)
  {
    RestOffPlan(voices[i], VoicesLast(voices[..i], lastPos));
    FilledVoiceCombined(pencils, voices, false, lastPos, i);
  }

  // ---------------------------------------------------------------------
  // The add-on's code
  // ---------------------------------------------------------------------

  /**
   * One frame copy as the add-on makes it: read the source layer's last
   * frame, copy it onto the combined layer and renumber it. Here and below,
   * `start`, `layers` and `done` are the blocks and the voice's layers when
   * the voice began and the copies made since; the store is always `start`
   * with the voice's block replaced by the result of those copies.
   */
  method CopyOne(host: Host, name: string, combined: string, copy: Copy,
                 ghost start: Pencils, ghost layers: Layers, ghost done: seq<Copy>)
    requires CanApply(layers, combined, done + [copy])
    requires CanApply(layers, combined, done)
    requires host.pencils == start[name := ApplyCopies(layers, combined, done)]
    modifies host`pencils
    ensures host.pencils == start[name := ApplyCopies(layers, combined, done + [copy])]
  {
    ApplyCopiesSnoc(layers, combined, done, copy);
    var baseFrame := host.GetLastFrame(name, copy.Source());
    host.CopyFrame(name, combined, baseFrame, copy.Target());
  }

  /** The rest-gap check: copy the `rest` layer's last frame to `last_pos + 1` when `startFrame` leaves a gap. */
  method FillGap(host: Host, name: string, combined: string, startFrame: int, restFrames: bool, lastPos: int,
                 ghost start: Pencils, ghost layers: Layers, ghost done: seq<Copy>)
    requires CanApply(layers, combined, done + RestBefore(startFrame, restFrames, lastPos))
    requires CanApply(layers, combined, done)
    requires host.pencils == start[name := ApplyCopies(layers, combined, done)]
    modifies host`pencils
    ensures host.pencils == start[name := ApplyCopies(layers, combined, done + RestBefore(startFrame, restFrames, lastPos))]
  {
    if restFrames && startFrame > lastPos + 1 {
      CopyOne(host, name, combined, RestCopy(lastPos + 1), start, layers, done);
    } else {
      assert done + RestBefore(startFrame, restFrames, lastPos) == done;
    }
  }

  /** Walking one more phoneme extends the copies made so far along the word's plan. */
  lemma PhonemeStep(done: seq<Copy>, phonemes: seq<Phoneme>, m: nat)
    requires m < |phonemes|
    ensures done + PhonemeCopies(phonemes[..m]) + [PhonemeCopy(phonemes[m])] == done + PhonemeCopies(phonemes[..m + 1])
  {
    var upTo := phonemes[..m + 1];
    assert upTo[..m] == phonemes[..m] && upTo[m] == phonemes[m];
  }

  lemma PhonemeStepPrefix(done: seq<Copy>, phonemes: seq<Phoneme>, m: nat)
    requires m < |phonemes|
    ensures done + PhonemeCopies(phonemes[..m + 1]) <= done + PhonemeCopies(phonemes)
  {
    PhonemeCopiesPrefix(phonemes, m + 1);
    PrefixExtend(done, PhonemeCopies(phonemes[..m + 1]), PhonemeCopies(phonemes));
  }

  lemma PhonemeCopiesPrefix(phonemes: seq<Phoneme>, n: nat)
    requires n <= |phonemes|
    ensures PhonemeCopies(phonemes[..n]) <= PhonemeCopies(phonemes)
  {
    var a, b := PhonemeCopies(phonemes[..n]), PhonemeCopies(phonemes);
    forall k | 0 <= k < n
      ensures a[k] == b[k]
    {
      assert phonemes[..n][k] == phonemes[k];
    }
    assert a == b[..n];
  }

  lemma PrefixExtend(x: seq<Copy>, a: seq<Copy>, b: seq<Copy>)
    requires a <= b
    ensures x + a <= x + b
  {
    assert (x + b)[..|x + a|] == x + a;
  }

  /** The phoneme loop of one word: each occurrence's layer's last frame copied to the occurrence's frame. */
  method FillPhonemes(host: Host, name: string, combined: string, phonemes: seq<Phoneme>, lastPos: int,
                      ghost start: Pencils, ghost layers: Layers, ghost done: seq<Copy>)
    returns (newLast: int)
    requires CanApply(layers, combined, done + PhonemeCopies(phonemes))
    requires CanApply(layers, combined, done)
    requires host.pencils == start[name := ApplyCopies(layers, combined, done)]
    modifies host`pencils
    ensures host.pencils == start[name := ApplyCopies(layers, combined, done + PhonemeCopies(phonemes))]
    ensures newLast == PhonemesLast(phonemes, lastPos)
  {
    newLast := lastPos;
    assert phonemes[..0] == [] && done + PhonemeCopies([]) == done;
    for m := 0 to |phonemes|
      invariant CanApply(layers, combined, done + PhonemeCopies(phonemes[..m]))
      invariant host.pencils == start[name := ApplyCopies(layers, combined, done + PhonemeCopies(phonemes[..m]))]
      invariant newLast == PhonemesLast(phonemes[..m], lastPos)
    {
      var phoneme := phonemes[m];
      ghost var next := done + PhonemeCopies(phonemes[..m + 1]);
      PhonemeStep(done, phonemes, m);
      assert CanApply(layers, combined, next) by {
        PhonemeStepPrefix(done, phonemes, m);
        CanApplyPrefix(layers, combined, next, done + PhonemeCopies(phonemes));
      }
      CopyOne(host, name, combined, PhonemeCopy(phoneme), start, layers, done + PhonemeCopies(phonemes[..m]));
      newLast := phoneme.frame;
    }
    assert phonemes[..|phonemes|] == phonemes;
  }

  /** The body of the word loop: the word's rest-gap check, then its phonemes. */
  method FillWord(host: Host, name: string, combined: string, word: Word, restFrames: bool, lastPos: int,
                  ghost start: Pencils, ghost layers: Layers, ghost done: seq<Copy>)
    returns (newLast: int)
    requires CanApply(layers, combined, done + WordPlan(word, restFrames, lastPos))
    requires CanApply(layers, combined, done)
    requires host.pencils == start[name := ApplyCopies(layers, combined, done)]
    modifies host`pencils
    ensures host.pencils == start[name := ApplyCopies(layers, combined, done + WordPlan(word, restFrames, lastPos))]
    ensures newLast == PhonemesLast(word.phonemes, lastPos)
  {
    ghost var gap, rest := RestBefore(word.startFrame, restFrames, lastPos), PhonemeCopies(word.phonemes);
    ghost var before := done + gap;
    assert done + WordPlan(word, restFrames, lastPos) == before + rest by {
      AppendAssoc(done, gap, rest);
    }
    assert CanApply(layers, combined, before) by {
      CanApplyPrefix(layers, combined, before, before + rest);
    }
    FillGap(host, name, combined, word.startFrame, restFrames, lastPos, start, layers, done);
    newLast := FillPhonemes(host, name, combined, word.phonemes, lastPos, start, layers, before);
  }

  /** Walking one more word extends the copies made so far along the phrase's plan. */
  lemma WordStep(done: seq<Copy>, words: seq<Word>, k: nat, restFrames: bool, lastPos: int)
    requires k < |words|
    ensures done + WordsPlan(words[..k], restFrames, lastPos) + WordPlan(words[k], restFrames, WordsLast(words[..k], lastPos))
      == done + WordsPlan(words[..k + 1], restFrames, lastPos)
    ensures WordsLast(words[..k + 1], lastPos) == PhonemesLast(words[k].phonemes, WordsLast(words[..k], lastPos))
  {
    assert words[..k + 1][..k] == words[..k];
  }

  lemma WordStepPrefix(done: seq<Copy>, words: seq<Word>, k: nat, restFrames: bool, lastPos: int)
    requires k < |words|
    ensures done + WordsPlan(words[..k + 1], restFrames, lastPos) <= done + WordsPlan(words, restFrames, lastPos)
  {
    WordsPlanPrefix(words, k + 1, restFrames, lastPos);
    PrefixExtend(done, WordsPlan(words[..k + 1], restFrames, lastPos), WordsPlan(words, restFrames, lastPos));
  }

  lemma WordsStart(done: seq<Copy>, words: seq<Word>, restFrames: bool, lastPos: int)
    ensures done + WordsPlan(words[..0], restFrames, lastPos) == done && WordsLast(words[..0], lastPos) == lastPos
  {
    assert words[..0] == [];
  }

  lemma WordStepCanApply(layers: Layers, combined: string, done: seq<Copy>, words: seq<Word>, k: nat, restFrames: bool, lastPos: int)
    requires k < |words| && CanApply(layers, combined, done + WordsPlan(words, restFrames, lastPos))
    ensures CanApply(layers, combined, done + WordsPlan(words[..k + 1], restFrames, lastPos))
  {
    WordStepPrefix(done, words, k, restFrames, lastPos);
    CanApplyPrefix(layers, combined, done + WordsPlan(words[..k + 1], restFrames, lastPos), done + WordsPlan(words, restFrames, lastPos));
  }

  lemma {:induction false} WordsPlanPrefix(words: seq<Word>, k: nat, restFrames: bool, lastPos: int)
    requires k <= |words|
    ensures WordsPlan(words[..k], restFrames, lastPos) <= WordsPlan(words, restFrames, lastPos)
  {
    if k < |words| {
      var init := words[..|words| - 1];
      WordsPlanPrefix(init, k, restFrames, lastPos);
      assert init[..k] == words[..k];
    } else {
      assert words[..k] == words;
    }
  }

  /** Walking one more phrase extends the copies made so far along the voice's plan. */
  lemma PhraseStep(phrases: seq<Phrase>, j: nat, restFrames: bool, lastPos: int)
    requires j < |phrases|
    ensures PhrasesPlan(phrases[..j], restFrames, lastPos) + PhrasePlan(phrases[j], restFrames, PhrasesLast(phrases[..j], lastPos))
      == PhrasesPlan(phrases[..j + 1], restFrames, lastPos)
    ensures PhrasesLast(phrases[..j + 1], lastPos) == WordsLast(phrases[j].words, PhrasesLast(phrases[..j], lastPos))
  {
    assert phrases[..j + 1][..j] == phrases[..j];
  }

  lemma {:induction false} PhrasesPlanPrefix(phrases: seq<Phrase>, k: nat, restFrames: bool, lastPos: int)
    requires k <= |phrases|
    ensures PhrasesPlan(phrases[..k], restFrames, lastPos) <= PhrasesPlan(phrases, restFrames, lastPos)
  {
    if k < |phrases| {
      var init := phrases[..|phrases| - 1];
      PhrasesPlanPrefix(init, k, restFrames, lastPos);
      assert init[..k] == phrases[..k];
    } else {
      assert phrases[..k] == phrases;
    }
  }

  /** The word loop of one phrase. */
  method FillWords(host: Host, name: string, combined: string, words: seq<Word>, restFrames: bool, lastPos: int,
                   ghost start: Pencils, ghost layers: Layers, ghost done: seq<Copy>)
    returns (newLast: int)
    requires CanApply(layers, combined, done + WordsPlan(words, restFrames, lastPos))
    requires CanApply(layers, combined, done)
    requires host.pencils == start[name := ApplyCopies(layers, combined, done)]
    modifies host`pencils
    ensures host.pencils == start[name := ApplyCopies(layers, combined, done + WordsPlan(words, restFrames, lastPos))]
    ensures newLast == WordsLast(words, lastPos)
  {
    newLast := lastPos;
    WordsStart(done, words, restFrames, lastPos);
    for k := 0 to |words|
      invariant CanApply(layers, combined, done + WordsPlan(words[..k], restFrames, lastPos))
      invariant host.pencils == start[name := ApplyCopies(layers, combined, done + WordsPlan(words[..k], restFrames, lastPos))]
      invariant newLast == WordsLast(words[..k], lastPos)
    {
      ghost var current := done + WordsPlan(words[..k], restFrames, lastPos);
      WordStep(done, words, k, restFrames, lastPos);
      WordStepCanApply(layers, combined, done, words, k, restFrames, lastPos);
      newLast := FillWord(host, name, combined, words[k], restFrames, newLast, start, layers, current);
    }
    assert words[..|words|] == words;
  }

  /** The body of the phrase loop: the phrase's rest-gap check, then its words. */
  method FillPhrase(host: Host, name: string, combined: string, phrase: Phrase, restFrames: bool, lastPos: int,
                    ghost start: Pencils, ghost layers: Layers, ghost done: seq<Copy>)
    returns (newLast: int)
    requires CanApply(layers, combined, done + PhrasePlan(phrase, restFrames, lastPos))
    requires CanApply(layers, combined, done)
    requires host.pencils == start[name := ApplyCopies(layers, combined, done)]
    modifies host`pencils
    ensures host.pencils == start[name := ApplyCopies(layers, combined, done + PhrasePlan(phrase, restFrames, lastPos))]
    ensures newLast == WordsLast(phrase.words, lastPos)
  {
    ghost var gap, rest := RestBefore(phrase.startFrame, restFrames, lastPos), WordsPlan(phrase.words, restFrames, lastPos);
    ghost var before := done + gap;
    assert done + PhrasePlan(phrase, restFrames, lastPos) == before + rest by {
      AppendAssoc(done, gap, rest);
    }
    assert CanApply(layers, combined, before) by {
      CanApplyPrefix(layers, combined, before, before + rest);
    }
    FillGap(host, name, combined, phrase.startFrame, restFrames, lastPos, start, layers, done);
    newLast := FillWords(host, name, combined, phrase.words, restFrames, lastPos, start, layers, before);
  }

  /** The phrase loop of one voice. */
  method FillPhrases(host: Host, name: string, combined: string, phrases: seq<Phrase>, restFrames: bool, lastPos: int,
                     ghost start: Pencils, ghost layers: Layers)
    returns (newLast: int)
    requires CanApply(layers, combined, PhrasesPlan(phrases, restFrames, lastPos))
    requires host.pencils == start[name := layers]
    modifies host`pencils
    ensures host.pencils == start[name := ApplyCopies(layers, combined, PhrasesPlan(phrases, restFrames, lastPos))]
    ensures newLast == PhrasesLast(phrases, lastPos)
  {
    newLast := lastPos;
    assert phrases[..0] == [] && ApplyCopies(layers, combined, []) == layers;
    for j := 0 to |phrases|
      invariant CanApply(layers, combined, PhrasesPlan(phrases[..j], restFrames, lastPos))
      invariant host.pencils == start[name := ApplyCopies(layers, combined, PhrasesPlan(phrases[..j], restFrames, lastPos))]
      invariant newLast == PhrasesLast(phrases[..j], lastPos)
    {
      ghost var next := PhrasesPlan(phrases[..j + 1], restFrames, lastPos);
      PhraseStep(phrases, j, restFrames, lastPos);
      assert CanApply(layers, combined, next) by {
        PhrasesPlanPrefix(phrases, j + 1, restFrames, lastPos);
        CanApplyPrefix(layers, combined, next, PhrasesPlan(phrases, restFrames, lastPos));
      }
      newLast := FillPhrase(host, name, combined, phrases[j], restFrames, newLast, start, layers, PhrasesPlan(phrases[..j], restFrames, lastPos));
    }
    assert phrases[..|phrases|] == phrases;
  }

  /** The body of the voice loop: empty or create the combined layer, then walk the phrases. */
  method FillVoiceTimeline(host: Host, voice: Voice, restFrames: bool, lastPos: int) returns (newLast: int)
    requires CanFillVoice(host.pencils, voice, restFrames, lastPos)
    modifies host`pencils
    ensures host.pencils == FillVoice(old(host.pencils), voice, restFrames, lastPos)
    ensures newLast == PhrasesLast(voice.phrases, lastPos)
  {
    var name := voice.name;
    var combined := name + "combined";
    if combined in host.pencils[name] {
      host.ClearLayer(name, combined);
    } else {
      host.NewLayer(name, combined);
    }
    ghost var start := old(host.pencils);
    newLast := FillPhrases(host, name, combined, voice.phrases, restFrames, lastPos, start, Cleared(start[name], combined));
  }

  /** `fill_timeline` on an already parsed file; `restFrames` is the panel's "Enable Rest Frames" option. */
  method FillTimeline(host: Host, path: string, file: ProjectFile, restFrames: bool)
    requires Fits(path, file)
    requires CanFill(host.pencils, Voices(path, file), restFrames, 0)
    modifies host`pencils
    ensures host.pencils == FillAll(old(host.pencils), Voices(path, file), restFrames, 0)
  {
    var lastPos := 0;
    var voiceList := CollectVoices(path, file);
    ghost var start := host.pencils;
    CanFillPrefix(start, voiceList, restFrames, 0, 0);
    assert voiceList[..0] == [];
    for i := 0 to |voiceList|
      invariant CanFill(start, voiceList[..i], restFrames, 0)
      invariant host.pencils == FillAll(start, voiceList[..i], restFrames, 0)
      invariant lastPos == VoicesLast(voiceList[..i], 0)
    {
      FillAllStep(start, voiceList, restFrames, 0, i);
      lastPos := FillVoiceTimeline(host, voiceList[i], restFrames, lastPos);
    }
    assert voiceList[..|voiceList|] == voiceList;
  }
}
