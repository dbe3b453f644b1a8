/**
 * The "Used Phonemes" listing the add-on's panel shows: per voice a header
 * `name:` and then the voice's used phonemes two per line, built with
 * Python's `zip(used[::2], used[1::2])`.
 */
module UsedPhonemes {
  import opened Papagayo

  /** Python's `s[::2]`. */
  function EvenItems<T>(s: seq<T>): (r: seq<T>)
    ensures |r| == (|s| + 1) / 2
    ensures forall k :: 0 <= k < |r| ==> r[k] == s[2 * k]
  {
    if |s| == 0 then []
    else if |s| == 1 then [s[0]]
    else [s[0]] + EvenItems(s[2..])
  }

  /** Python's `s[1::2]`. */
  function OddItems<T>(s: seq<T>): (r: seq<T>)
    ensures |r| == |s| / 2
    ensures forall k :: 0 <= k < |r| ==> r[k] == s[2 * k + 1]
  {
    if |s| < 2 then [] else EvenItems(s[1..])
  }

  /** Python's `zip` of two lists: it stops at the end of the shorter one. */
  function Zip<T>(a: seq<T>, b: seq<T>): (r: seq<(T, T)>)
    ensures |r| == if |a| < |b| then |a| else |b|
    ensures forall k :: 0 <= k < |r| ==> r[k] == (a[k], b[k])
  {
    if a == [] || b == [] then []
    else [(a[0], b[0])] + Zip(a[1..], b[1..])
  }

  /** The `"{}  |  {}"` format of one pair line. */
  function PairLine(left: string, right: string): string
  {
    left + "  |  " + right
  }

  /**
   * The pair lines of one voice's used phonemes: exactly `n / 2` of them,
   * line `k` pairing used phonemes `2k` and `2k + 1`.
   */
  function PairLines(used: seq<string>): (lines: seq<string>)
    ensures |lines| == |used| / 2
    ensures forall k :: 0 <= k < |lines| ==> lines[k] == PairLine(used[2 * k], used[2 * k + 1])
  {
    var pairs := Zip(EvenItems(used), OddItems(used));
    seq(|pairs|, k requires 0 <= k < |pairs| => PairLine(pairs[k].0, pairs[k].1))
  }

  function Header(voice: Voice): string
  {
    voice.name + ":"
  }

  /** What one voice contributes to the listing: its header, then line `k + 1` pairing used phonemes `2k` and `2k + 1`. */
  function VoiceLines(voice: Voice): (lines: seq<string>)
    ensures |lines| == 1 + |voice.usedPhonemes| / 2
    ensures lines[0] == Header(voice)
    ensures forall k :: 0 <= k < |voice.usedPhonemes| / 2 ==>
      lines[k + 1] == PairLine(voice.usedPhonemes[2 * k], voice.usedPhonemes[2 * k + 1])
  {
    [Header(voice)] + PairLines(voice.usedPhonemes)
  }

  /** The listing is empty exactly when there are no voices, and otherwise opens with the first voice's header. */
  function Listing(voices: seq<Voice>): (lines: seq<string>)
    ensures lines == [] <==> voices == []
    ensures voices != [] ==> lines[0] == Header(voices[0])
  {
    if voices == [] then [] else VoiceLines(voices[0]) + Listing(voices[1..])
  }

  /**
   * `get_list_of_phonemes` on an already parsed file: one header plus `n / 2`
   * pair lines per voice of the normalised voice list, and for a legacy file
   * exactly the lines of its single voice.
   */
  function PhonemeListing(path: string, file: ProjectFile): (lines: seq<string>)
    requires Fits(path, file)
    ensures |lines| == LineCount(Voices(path, file))
    ensures !IsPg2(path) ==> lines == VoiceLines(file.voice)
  {
    ListingLength(Voices(path, file));
    assert !IsPg2(path) ==> [file.voice][1..] == [];
    Listing(Voices(path, file))
  }

  /** Where the header of voice `i` sits in the listing. */
  function HeaderIndex(voices: seq<Voice>, i: nat): nat
    requires i <= |voices|
  {
    |Listing(voices[..i])|
  }

  /** The line count the listing adds up to: one header plus `n / 2` pair lines per voice. */
  function LineCount(voices: seq<Voice>): nat
  {
    if voices == [] then 0 else 1 + |voices[0].usedPhonemes| / 2 + LineCount(voices[1..])
  }

  /** With an odd number of used phonemes the last one is not listed. */
  lemma OddCountDropsLast(used: seq<string>)
    requires |used| % 2 == 1
    ensures PairLines(used) == PairLines(used[..|used| - 1])
  {
  }

  lemma {:induction false} ListingLength(voices: seq<Voice>)
    ensures |Listing(voices)| == LineCount(voices)
  {
    if voices != [] {
      ListingLength(voices[1..]);
    }
  }

  lemma {:induction false} ListingAppend(a: seq<Voice>, b: seq<Voice>)
    ensures Listing(a + b) == Listing(a) + Listing(b)
  {
    if a == [] {
      assert a + b == b;
    } else {
      var ab := a + b;
      assert ab[0] == a[0] && ab[1..] == a[1..] + b;
      calc {
        Listing(ab);
        VoiceLines(a[0]) + Listing(a[1..] + b);
        { ListingAppend(a[1..], b); }
        VoiceLines(a[0]) + (Listing(a[1..]) + Listing(b));
        Listing(a) + Listing(b);
      }
    }
  }

  lemma ListingSplit(voices: seq<Voice>, i: nat)
    requires i < |voices|
    ensures Listing(voices) == Listing(voices[..i]) + VoiceLines(voices[i]) + Listing(voices[i + 1..])
  {
    var before, rest, after := voices[..i], voices[i..], voices[i + 1..];
    assert voices == before + rest;
    assert Listing(rest) == VoiceLines(voices[i]) + Listing(after) by {
      assert rest[0] == voices[i] && rest[1..] == after;
    }
    ListingAppend(before, rest);
    AppendAssoc(Listing(before), VoiceLines(voices[i]), Listing(after));
  }

  /**
   * Each voice contributes exactly one header, `name:`, followed by its
   * `n / 2` pair lines (`PairLines` says what each one shows); the next
   * voice's header follows right after.
   */
  lemma VoiceLayout(voices: seq<Voice>, i: nat)
    requires i < |voices|
    ensures HeaderIndex(voices, i) + 1 + |voices[i].usedPhonemes| / 2 == HeaderIndex(voices, i + 1) <= |Listing(voices)|
    ensures Listing(voices)[HeaderIndex(voices, i)] == voices[i].name + ":"
    ensures Listing(voices)[HeaderIndex(voices, i) + 1..HeaderIndex(voices, i + 1)] == PairLines(voices[i].usedPhonemes)
  {
    var all, before, pairs := Listing(voices), Listing(voices[..i]), PairLines(voices[i].usedPhonemes);
    var here, next := HeaderIndex(voices, i), HeaderIndex(voices, i + 1);
    assert here == |before| && next == here + 1 + |pairs| by {
      VoicePrefix(voices, i);
    }
    assert next <= |all| && all[here] == Header(voices[i]) && all[here + 1..next] == pairs by {
      VoiceSlice(voices, i);
      MiddleSlice(all, before, Header(voices[i]), pairs, Listing(voices[i + 1..]));
    }
  }

  /** Voice `i`'s lines sit between those of the voices before it and those of the voices after it. */
  lemma VoiceSlice(voices: seq<Voice>, i: nat)
    requires i < |voices|
    ensures Listing(voices) == Listing(voices[..i]) + ([Header(voices[i])] + PairLines(voices[i].usedPhonemes)) + Listing(voices[i + 1..])
  {
    ListingSplit(voices, i);
  }

  lemma VoicePrefix(voices: seq<Voice>, i: nat)
    requires i < |voices|
    ensures |Listing(voices[..i + 1])| == |Listing(voices[..i])| + 1 + |PairLines(voices[i].usedPhonemes)|
  {
    assert voices[..i + 1] == voices[..i] + [voices[i]];
    ListingAppend(voices[..i], [voices[i]]);
    assert Listing([voices[i]]) == VoiceLines(voices[i]) + Listing([]);
  }

  /** Where the header and the middle part sit in a concatenation. Kept as a separate generic lemma so that the large proofs using it stay cheap. */
  lemma MiddleSlice<T>(all: seq<T>, before: seq<T>, header: T, middle: seq<T>, after: seq<T>)
    requires all == before + ([header] + middle) + after
    ensures |before| + 1 + |middle| <= |all|
    ensures all[|before|] == header
    ensures all[|before| + 1..|before| + 1 + |middle|] == middle
  {
  }
}
