/**
 * A Papagayo-NG lip-sync project after `json.load`: voices made of phrases,
 * phrases of words, words of timed phoneme occurrences.
 *
 * A `.pg2` project wraps its voices in a `voices` list; a legacy `.json`
 * project is a single voice at the top level. The add-on tells the two apart
 * by the file name alone. Each datatype constructor carries every key that
 * the add-on's routines read in that format, so a file lacking one of them
 * (a key lookup error in the add-on) cannot be written down at all; `Fits`
 * only ties the `.pg2` suffix of the path to the constructor.
 */
module Papagayo {

  /** One timed phoneme occurrence: the mouth shape `text` shown at `frame`. */
  datatype Phoneme = Phoneme(text: string, frame: int)

  datatype Word = Word(startFrame: int, phonemes: seq<Phoneme>)

  datatype Phrase = Phrase(startFrame: int, words: seq<Word>)

  datatype Voice = Voice(name: string, usedPhonemes: seq<string>, phrases: seq<Phrase>)

  datatype ProjectFile =
    | MultiVoice(fps: int, soundPath: string, soundDuration: int, voices: seq<Voice>)
    | SingleVoice(fps: int, endFrame: int, voice: Voice)

  /** Python's `str.endswith`. */
  predicate EndsWith(s: string, suffix: string)
  {
    |suffix| <= |s| && s[|s| - |suffix|..] == suffix
  }

  predicate IsPg2(path: string)
  {
    EndsWith(path, ".pg2")
  }

  /** The keys the add-on reads are present: a `.pg2` path names a multi-voice project, any other path a single voice. */
  predicate Fits(path: string, file: ProjectFile)
  {
    IsPg2(path) == file.MultiVoice?
  }

  /** The normalised voice list: the `voices` list of a `.pg2` project, otherwise the top-level voice alone. */
  function Voices(path: string, file: ProjectFile): seq<Voice>
    requires Fits(path, file)
  {
    if IsPg2(path) then file.voices else [file.voice]
  }

  /** `NUM_FRAMES`: the sound duration of a `.pg2` project, otherwise its end frame. */
  function NumFrames(path: string, file: ProjectFile): int
    requires Fits(path, file)
  {
    if IsPg2(path) then file.soundDuration else file.endFrame
  }

  /** Builds `voice_list` as the add-on does, appending voice by voice. */
  method CollectVoices(path: string, file: ProjectFile) returns (voiceList: seq<Voice>)
    requires Fits(path, file)
    ensures IsPg2(path) ==> voiceList == file.voices
    ensures !IsPg2(path) ==> voiceList == [file.voice]
    ensures voiceList == Voices(path, file)
  {
    voiceList := [];
    if IsPg2(path) {
      for i := 0 to |file.voices|
        invariant voiceList == file.voices[..i]
      {
        voiceList := voiceList + [file.voices[i]];
      }
    } else {
      voiceList := voiceList + [file.voice];
    }
  }

  /** The phoneme occurrences of some words, in file order. */
  function WordsPhonemes(words: seq<Word>): seq<Phoneme>
  {
    if words == [] then []
    else WordsPhonemes(words[..|words| - 1]) + words[|words| - 1].phonemes
  }

  /** The phoneme occurrences of some phrases, in file order (phrase, then word, then phoneme). */
  function PhrasesPhonemes(phrases: seq<Phrase>): seq<Phoneme>
  {
    if phrases == [] then []
    else PhrasesPhonemes(phrases[..|phrases| - 1]) + WordsPhonemes(phrases[|phrases| - 1].words)
  }

  function Occurrences(voice: Voice): seq<Phoneme>
  {
    PhrasesPhonemes(voice.phrases)
  }

  /** A non-empty sequence is its prefix followed by its last element. Kept as a separate generic lemma so that the large proofs using it stay cheap. */
  lemma SplitLast<T>(s: seq<T>)
    requires s != []
    ensures s == s[..|s| - 1] + [s[|s| - 1]]
  {
  }

  /** Concatenation is associative. Kept as a separate generic lemma so that the large proofs using it stay cheap. */
  lemma AppendAssoc<T>(a: seq<T>, b: seq<T>, c: seq<T>)
    ensures a + (b + c) == a + b + c
  {
  }
}
