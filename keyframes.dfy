/**
 * `create_keyframes`: for every phoneme occurrence of every voice, an empty
 * keyframe at the occurrence's frame on the layer named after the phoneme,
 * in the voice's grease-pencil block. Blocks and layers are created on
 * demand; a frame number the layer already has is left alone, because
 * `frames.new` raises `RuntimeError` for it and the add-on swallows the
 * error.
 */
module Keyframes {
  import opened Papagayo
  import opened GreasePencil
  import opened Provisioning

  // ---------------------------------------------------------------------
  // Keys on one block's layers
  // ---------------------------------------------------------------------

  /**
   * One occurrence: the layer created when missing, then an empty frame at
   * the occurrence's frame unless the layer already has one there.
   */
  function AddKey(layers: Layers, p: Phoneme): (r: Layers)
    ensures r.Keys == layers.Keys + {p.text}
    ensures forall l :: l in layers && l != p.text ==> r[l] == layers[l]
    ensures HasFrameAt(r[p.text], p.frame)
    ensures p.text in layers ==> layers[p.text] <= r[p.text]
    ensures p.text in layers && HasFrameAt(layers[p.text], p.frame) ==> r == layers
  {
    var l := if p.text in layers then layers else layers[p.text := []];
    if HasFrameAt(l[p.text], p.frame) then l
    else
      var frames := l[p.text] + [Frame(p.frame, EmptyDrawing)];
      assert frames[|frames| - 1].number == p.frame;
      l[p.text := frames]
  }

  /** Every layer of `before` is still there and still starts with the frames it had. */
  predicate Extends(before: Layers, after: Layers)
  {
    before.Keys <= after.Keys &&
    forall l :: l in before ==> before[l] <= after[l]
  }

  /** Every occurrence has its layer, and that layer a frame at the occurrence's frame. */
  predicate Keyed(layers: Layers, occurrences: seq<Phoneme>)
  {
    forall k :: 0 <= k < |occurrences| ==>
      occurrences[k].text in layers && HasFrameAt(layers[occurrences[k].text], occurrences[k].frame)
  }

  lemma ExtendsTransitive(a: Layers, b: Layers, c: Layers)
    requires Extends(a, b) && Extends(b, c)
    ensures Extends(a, c)
  {
    forall l | l in a ensures a[l] <= c[l] {
      assert a[l] <= b[l] && b[l] <= c[l];
    }
  }

  lemma HasFrameAtExtends(a: seq<Frame>, b: seq<Frame>, number: int)
    requires a <= b && HasFrameAt(a, number)
    ensures HasFrameAt(b, number)
  {
    var i :| 0 <= i < |a| && a[i].number == number;
    assert b[i] == a[i];
  }

  lemma KeyedExtends(a: Layers, b: Layers, occurrences: seq<Phoneme>)
    requires Keyed(a, occurrences) && Extends(a, b)
    ensures Keyed(b, occurrences)
  {
    forall k | 0 <= k < |occurrences|
      ensures occurrences[k].text in b && HasFrameAt(b[occurrences[k].text], occurrences[k].frame)
    {
      HasFrameAtExtends(a[occurrences[k].text], b[occurrences[k].text], occurrences[k].frame);
    }
  }

  /** The phoneme loop, on values: one key per occurrence, in order. */
  function AddKeys(layers: Layers, occurrences: seq<Phoneme>): (r: Layers)
    ensures Extends(layers, r)
    ensures Keyed(r, occurrences)
    ensures forall l :: l in r ==> l in layers || exists k :: 0 <= k < |occurrences| && occurrences[k].text == l
  {
    if occurrences == [] then layers
    else
      var n := |occurrences| - 1;
      var init := occurrences[..n];
      var prev := AddKeys(layers, init);
      var r := AddKey(prev, occurrences[n]);
      SplitLast(occurrences);
      AddKeyStep(layers, init, occurrences[n], prev, r);
      r
  }

  /** What one more occurrence does to the phoneme loop's guarantees. */
  lemma AddKeyStep(layers: Layers, init: seq<Phoneme>, p: Phoneme, prev: Layers, r: Layers)
    requires Extends(layers, prev) && Keyed(prev, init)
    requires forall l :: l in prev ==> l in layers || exists k :: 0 <= k < |init| && init[k].text == l
    requires r == AddKey(prev, p)
    ensures Extends(layers, r)
    ensures Keyed(r, init + [p])
    ensures forall l :: l in r ==> l in layers || exists k :: 0 <= k < |init + [p]| && (init + [p])[k].text == l
  {
    var occurrences := init + [p];
    assert Extends(prev, r);
    ExtendsTransitive(layers, prev, r);
    KeyedExtends(prev, r, init);
    forall k | 0 <= k < |occurrences|
      ensures occurrences[k].text in r && HasFrameAt(r[occurrences[k].text], occurrences[k].frame)
    {
      if k < |init| {
        assert occurrences[k] == init[k];
      }
    }
    forall l | l in r ensures l in layers || exists k :: 0 <= k < |occurrences| && occurrences[k].text == l {
      if l == p.text {
        assert occurrences[|init|] == p;
      } else {
        assert l in prev;
        if l !in layers {
          var k :| 0 <= k < |init| && init[k].text == l;
          assert occurrences[k] == init[k];
        }
      }
    }
  }

  /** The last element of a concatenation, and what precedes it. Kept as a separate generic lemma so that the large proofs using it stay cheap. */
  lemma AppendInit<T>(a: seq<T>, b: seq<T>)
    requires b != []
    ensures (a + b)[..|a + b| - 1] == a + b[..|b| - 1]
    ensures (a + b)[|a + b| - 1] == b[|b| - 1]
  {
  }

  lemma AddKeysStep(layers: Layers, occurrences: seq<Phoneme>, m: nat)
    requires m < |occurrences|
    ensures AddKeys(layers, occurrences[..m + 1]) == AddKey(AddKeys(layers, occurrences[..m]), occurrences[m])
  {
    assert occurrences[..m + 1][..m] == occurrences[..m];
  }

  lemma {:induction false} AddKeysAppend(layers: Layers, a: seq<Phoneme>, b: seq<Phoneme>)
    ensures AddKeys(layers, a + b) == AddKeys(AddKeys(layers, a), b)
  {
    if b == [] {
      assert a + b == a;
    } else {
      AppendInit(a, b);
      AddKeysAppend(layers, a, b[..|b| - 1]);
    }
  }

  /** Keying occurrences that all have their frame already changes nothing. */
  lemma {:induction false} AddKeysFixes(layers: Layers, occurrences: seq<Phoneme>)
    requires Keyed(layers, occurrences)
    ensures AddKeys(layers, occurrences) == layers
  {
    if occurrences != [] {
      var n := |occurrences| - 1;
      var init := occurrences[..n];
      assert Keyed(layers, init) by {
        assert forall k :: 0 <= k < n ==> init[k] == occurrences[k];
      }
      AddKeysFixes(layers, init);
      assert occurrences[n].text in layers && HasFrameAt(layers[occurrences[n].text], occurrences[n].frame);
    }
  }

  /** No layer holds two frames with the same number, as Blender guarantees. */
  predicate DistinctNumbers(frames: seq<Frame>)
  {
    forall i, j :: 0 <= i < j < |frames| ==> frames[i].number != frames[j].number
  }

  predicate AllDistinct(layers: Layers)
  {
    forall l :: l in layers ==> DistinctNumbers(layers[l])
  }

  lemma AddKeyKeepsDistinct(layers: Layers, p: Phoneme)
    requires AllDistinct(layers)
    ensures AllDistinct(AddKey(layers, p))
  {
    var r := AddKey(layers, p);
    var before := if p.text in layers then layers[p.text] else [];
    if r[p.text] != before {
      var frames := r[p.text];
      assert frames == before + [Frame(p.frame, EmptyDrawing)];
      assert !HasFrameAt(before, p.frame);
      forall i, j | 0 <= i < j < |frames| ensures frames[i].number != frames[j].number {
        if j == |before| {
          assert frames[i] == before[i];
        } else {
          assert frames[i] == before[i] && frames[j] == before[j];
        }
      }
    }
  }

  /** The keyframes pass never gives a layer two frames with the same number. */
  lemma {:induction false} AddKeysKeepsDistinct(layers: Layers, occurrences: seq<Phoneme>)
    requires AllDistinct(layers)
    ensures AllDistinct(AddKeys(layers, occurrences))
  {
    if occurrences != [] {
      var n := |occurrences| - 1;
      AddKeysKeepsDistinct(layers, occurrences[..n]);
      AddKeyKeepsDistinct(AddKeys(layers, occurrences[..n]), occurrences[n]);
    }
  }

  /** Every frame the pass adds is empty and sits at the frame of an occurrence of that layer's phoneme. */
  predicate NewFramesFrom(before: Layers, after: Layers, occurrences: seq<Phoneme>)
    requires Extends(before, after)
  {
    forall l, i :: l in after && (if l in before then |before[l]| else 0) <= i < |after[l]| ==>
      after[l][i].content == EmptyDrawing &&
      exists k :: 0 <= k < |occurrences| && occurrences[k].text == l && occurrences[k].frame == after[l][i].number
  }

  lemma {:induction false} AddKeysNewFrames(layers: Layers, occurrences: seq<Phoneme>)
    ensures NewFramesFrom(layers, AddKeys(layers, occurrences), occurrences)
  {
    if occurrences != [] {
      var n := |occurrences| - 1;
      var init := occurrences[..n];
      AddKeysNewFrames(layers, init);
      SplitLast(occurrences);
      NewFramesStep(layers, init, occurrences[n], AddKeys(layers, init), AddKeys(layers, occurrences));
    }
  }

  lemma NewFramesStep(layers: Layers, init: seq<Phoneme>, p: Phoneme, prev: Layers, r: Layers)
    requires Extends(layers, prev) && NewFramesFrom(layers, prev, init)
    requires r == AddKey(prev, p)
    ensures Extends(layers, r)
    ensures NewFramesFrom(layers, r, init + [p])
  {
    var occurrences := init + [p];
    assert Extends(prev, r);
    ExtendsTransitive(layers, prev, r);
    forall l: string, i: int | l in r && (if l in layers then |layers[l]| else 0) <= i < |r[l]|
      ensures r[l][i].content == EmptyDrawing
      ensures exists k :: 0 <= k < |occurrences| && occurrences[k].text == l && occurrences[k].frame == r[l][i].number
    {
      if l in prev && i < |prev[l]| {
        assert r[l][i] == prev[l][i];
        var k :| 0 <= k < |init| && init[k].text == l && init[k].frame == prev[l][i].number;
        assert occurrences[k] == init[k];
      } else {
        assert l == p.text && r[l][i] == Frame(p.frame, EmptyDrawing);
        assert occurrences[|init|] == p;
      }
    }
  }

  // ---------------------------------------------------------------------
  // Keys on every voice
  // ---------------------------------------------------------------------

  /**
   * One voice: its block (found or new) exists afterwards and keys every
   * occurrence of the voice; the block only gains frames, every frame it
   * gains is an empty frame at an occurrence's frame on that occurrence's
   * layer, every layer it gains is an occurrence's phoneme, and every other
   * block is left alone.
   */
  function KeyVoice(pencils: Pencils, voice: Voice): (r: Pencils)
    ensures r.Keys == pencils.Keys + {voice.name}
    ensures forall b :: b in pencils && b != voice.name ==> r[b] == pencils[b]
    ensures Keyed(r[voice.name], Occurrences(voice))
    ensures Extends(Block(pencils, voice.name), r[voice.name])
    ensures NewFramesFrom(Block(pencils, voice.name), r[voice.name], Occurrences(voice))
    ensures forall l :: l in r[voice.name] ==>
      l in Block(pencils, voice.name) || exists k :: 0 <= k < |Occurrences(voice)| && Occurrences(voice)[k].text == l
  {
    AddKeysNewFrames(Block(pencils, voice.name), Occurrences(voice));
    pencils[voice.name := AddKeys(Block(pencils, voice.name), Occurrences(voice))]
  }

  /** Every voice's occurrences are keyed in its block. */
  predicate AllKeyed(pencils: Pencils, voices: seq<Voice>)
  {
    forall i :: 0 <= i < |voices| ==> voices[i].name in pencils && Keyed(pencils[voices[i].name], Occurrences(voices[i]))
  }

  /** Every block of `before` is still there and extends what it had. */
  predicate BlocksExtend(before: Pencils, after: Pencils)
  {
    before.Keys <= after.Keys &&
    forall b :: b in before ==> Extends(before[b], after[b])
  }

  /** The voice loop, on values. */
  function KeyAll(pencils: Pencils, voices: seq<Voice>): (r: Pencils)
    ensures BlocksExtend(pencils, r)
    ensures AllKeyed(r, voices)
    ensures forall b :: b in r ==> b in pencils || exists i :: 0 <= i < |voices| && voices[i].name == b
  {
    if voices == [] then pencils
    else
      var n := |voices| - 1;
      var init, voice := voices[..n], voices[n];
      var prev := KeyAll(pencils, init);
      var r := KeyVoice(prev, voice);
      KeyAllStep(pencils, voices, init, prev, r);
      r
  }

  /** What the last voice does to the voice loop's guarantees. */
  lemma KeyAllStep(pencils: Pencils, voices: seq<Voice>, init: seq<Voice>, prev: Pencils, r: Pencils)
    requires voices != [] && init == voices[..|voices| - 1]
    requires BlocksExtend(pencils, prev) && AllKeyed(prev, init)
    requires forall b :: b in prev ==> b in pencils || exists i :: 0 <= i < |init| && init[i].name == b
    requires r == KeyVoice(prev, voices[|voices| - 1])
    ensures BlocksExtend(pencils, r)
    ensures AllKeyed(r, voices)
    ensures forall b :: b in r ==> b in pencils || exists i :: 0 <= i < |voices| && voices[i].name == b
  {
    var voice := voices[|voices| - 1];
    SplitLast(voices);
    KeyVoiceStep(pencils, init, voice, prev, r);
  }

  lemma KeyVoiceStep(pencils: Pencils, init: seq<Voice>, voice: Voice, prev: Pencils, r: Pencils)
    requires BlocksExtend(pencils, prev) && AllKeyed(prev, init)
    requires forall b :: b in prev ==> b in pencils || exists i :: 0 <= i < |init| && init[i].name == b
    requires r == KeyVoice(prev, voice)
    ensures BlocksExtend(pencils, r)
    ensures AllKeyed(r, init + [voice])
    ensures forall b :: b in r ==> b in pencils || exists i :: 0 <= i < |init + [voice]| && (init + [voice])[i].name == b
  {
    KeyVoiceOrigin(pencils, init, voice, prev, r);
    var voices := init + [voice];
    var name := voice.name;
    forall b | b in pencils ensures Extends(pencils[b], r[b]) {
      if b == name {
        ExtendsTransitive(pencils[b], prev[b], r[b]);
      }
    }
    forall i | 0 <= i < |voices|
      ensures voices[i].name in r && Keyed(r[voices[i].name], Occurrences(voices[i]))
    {
      if i < |init| {
        assert voices[i] == init[i];
        if init[i].name == name {
          KeyedExtends(prev[name], r[name], Occurrences(init[i]));
        }
      }
    }
  }

  lemma KeyVoiceOrigin(pencils: Pencils, init: seq<Voice>, voice: Voice, prev: Pencils, r: Pencils)
    requires forall b :: b in prev ==> b in pencils || exists i :: 0 <= i < |init| && init[i].name == b
    requires r == KeyVoice(prev, voice)
    ensures forall b :: b in r ==> b in pencils || exists i :: 0 <= i < |init + [voice]| && (init + [voice])[i].name == b
  {
    var voices := init + [voice];
    forall b | b in r ensures b in pencils || exists i :: 0 <= i < |voices| && voices[i].name == b {
      if b == voice.name {
        assert voices[|init|] == voice;
      } else if b !in pencils {
        var i :| 0 <= i < |init| && init[i].name == b;
        assert voices[i] == init[i];
      }
    }
  }

  /** How many frames layer `l` of block `b` had before the pass: none when the block or the layer did not exist. */
  function OldCount(before: Pencils, b: string, l: string): nat
  {
    if b in before && l in before[b] then |before[b][l]| else 0
  }

  /** Some voice named `b` has an occurrence of phoneme `l` at frame `number`. */
  predicate KeyedBy(voices: seq<Voice>, b: string, l: string, number: int)
  {
    exists v, k :: 0 <= v < |voices| && voices[v].name == b && 0 <= k < |Occurrences(voices[v])| &&
      Occurrences(voices[v])[k].text == l && Occurrences(voices[v])[k].frame == number
  }

  /** Every frame the voice loop adds, in any block, is empty and sits at an occurrence of that block's voice and that layer's phoneme. */
  predicate BlocksNewFramesFrom(before: Pencils, after: Pencils, voices: seq<Voice>)
  {
    forall b, l, i :: b in after && l in after[b] && OldCount(before, b, l) <= i < |after[b][l]| ==>
      after[b][l][i].content == EmptyDrawing && KeyedBy(voices, b, l, after[b][l][i].number)
  }

  lemma KeyedByExtends(init: seq<Voice>, voice: Voice, b: string, l: string, number: int)
    ensures KeyedBy(init, b, l, number) ==> KeyedBy(init + [voice], b, l, number)
  {
    if KeyedBy(init, b, l, number) {
      var v, k :| 0 <= v < |init| && init[v].name == b && 0 <= k < |Occurrences(init[v])| &&
        Occurrences(init[v])[k].text == l && Occurrences(init[v])[k].frame == number;
      assert (init + [voice])[v] == init[v];
    }
  }

  /**
   * Over all voices, the keyframe pass adds only empty frames, each at the
   * frame of an occurrence of its layer's phoneme in a voice named after its
   * block; so only occurrence layers of voice blocks gain frames.
   */
  lemma {:induction false} KeyAllNewFrames(pencils: Pencils, voices: seq<Voice>)
    ensures BlocksNewFramesFrom(pencils, KeyAll(pencils, voices), voices)
  {
    if voices != [] {
      var init := voices[..|voices| - 1];
      KeyAllNewFrames(pencils, init);
      SplitLast(voices);
      KeyNewFramesStep(pencils, init, voices[|voices| - 1], KeyAll(pencils, init), KeyAll(pencils, voices));
    }
  }

  lemma KeyNewFramesStep(pencils: Pencils, init: seq<Voice>, voice: Voice, prev: Pencils, r: Pencils)
    requires BlocksExtend(pencils, prev) && BlocksNewFramesFrom(pencils, prev, init)
    requires r == KeyVoice(prev, voice)
    ensures BlocksNewFramesFrom(pencils, r, init + [voice])
  {
    forall b, l, i | b in r && l in r[b] && OldCount(pencils, b, l) <= i < |r[b][l]|
      ensures r[b][l][i].content == EmptyDrawing && KeyedBy(init + [voice], b, l, r[b][l][i].number)
    {
      KeyNewFrame(pencils, init, voice, prev, r, b, l, i);
    }
  }

  lemma KeyNewFrame(pencils: Pencils, init: seq<Voice>, voice: Voice, prev: Pencils, r: Pencils, b: string, l: string, i: nat)
    requires BlocksExtend(pencils, prev) && BlocksNewFramesFrom(pencils, prev, init)
    requires r == KeyVoice(prev, voice)
    requires b in r && l in r[b] && OldCount(pencils, b, l) <= i < |r[b][l]|
    ensures r[b][l][i].content == EmptyDrawing && KeyedBy(init + [voice], b, l, r[b][l][i].number)
  {
    var base := Block(prev, voice.name);
    KeyedByExtends(init, voice, b, l, r[b][l][i].number);
    if b == voice.name && !(l in base && i < |base[l]|) {
      AddKeysNewFrames(base, Occurrences(voice));
      var k :| 0 <= k < |Occurrences(voice)| && Occurrences(voice)[k].text == l && Occurrences(voice)[k].frame == r[b][l][i].number;
      assert (init + [voice])[|init|] == voice;
    } else if b == voice.name {
      assert r[b][l][i] == base[l][i];
    }
  }

  /** Layer `l` is the phoneme of some occurrence of a voice named `b`. */
  predicate KeyedLayer(voices: seq<Voice>, b: string, l: string)
  {
    exists v, k :: 0 <= v < |voices| && voices[v].name == b && 0 <= k < |Occurrences(voices[v])| &&
      Occurrences(voices[v])[k].text == l
  }

  /** Every layer the voice loop adds to a block is the phoneme of an occurrence of a voice named after the block. */
  lemma {:induction false} KeyAllNewLayers(pencils: Pencils, voices: seq<Voice>)
    ensures forall b, l :: b in KeyAll(pencils, voices) && l in KeyAll(pencils, voices)[b] ==>
      l in Block(pencils, b) || KeyedLayer(voices, b, l)
  {
    if voices != [] {
      var init, voice := voices[..|voices| - 1], voices[|voices| - 1];
      KeyAllNewLayers(pencils, init);
      SplitLast(voices);
      var prev, r := KeyAll(pencils, init), KeyAll(pencils, voices);
      forall b, l | b in r && l in r[b] ensures l in Block(pencils, b) || KeyedLayer(voices, b, l) {
        KeyNewLayer(pencils, init, voice, prev, r, b, l);
      }
    }
  }

  lemma KeyNewLayer(pencils: Pencils, init: seq<Voice>, voice: Voice, prev: Pencils, r: Pencils, b: string, l: string)
    requires BlocksExtend(pencils, prev)
    requires forall b, l :: b in prev && l in prev[b] ==> l in Block(pencils, b) || KeyedLayer(init, b, l)
    requires r == KeyVoice(prev, voice)
    requires b in r && l in r[b]
    ensures l in Block(pencils, b) || KeyedLayer(init + [voice], b, l)
  {
    var voices := init + [voice];
    if KeyedLayer(init, b, l) {
      var v, k :| 0 <= v < |init| && init[v].name == b && 0 <= k < |Occurrences(init[v])| && Occurrences(init[v])[k].text == l;
      assert voices[v] == init[v];
    } else if b == voice.name && l !in Block(prev, b) {
      var k :| 0 <= k < |Occurrences(voice)| && Occurrences(voice)[k].text == l;
      assert voices[|init|] == voice;
    }
  }

  /** A block that no voice is named after comes out of the keyframe pass exactly as it went in. */
  lemma {:induction false} KeyAllUntouched(pencils: Pencils, voices: seq<Voice>, b: string)
    requires b in pencils
    requires forall i :: 0 <= i < |voices| ==> voices[i].name != b
    ensures KeyAll(pencils, voices)[b] == pencils[b]
  {
    if voices != [] {
      KeyAllUntouched(pencils, voices[..|voices| - 1], b);
    }
  }

  lemma {:induction false} KeyAllFixes(pencils: Pencils, voices: seq<Voice>)
    requires AllKeyed(pencils, voices)
    ensures KeyAll(pencils, voices) == pencils
  {
    if voices != [] {
      var n := |voices| - 1;
      var init := voices[..n];
      assert AllKeyed(pencils, init) by {
        assert forall i :: 0 <= i < n ==> init[i] == voices[i];
      }
      KeyAllFixes(pencils, init);
      AddKeysFixes(pencils[voices[n].name], Occurrences(voices[n]));
    }
  }

  /** Running the keyframes pass twice leaves the same blocks as running it once. */
  lemma KeyingIdempotent(pencils: Pencils, voices: seq<Voice>)
    ensures KeyAll(KeyAll(pencils, voices), voices) == KeyAll(pencils, voices)
  {
    KeyAllFixes(KeyAll(pencils, voices), voices);
  }

  // ---------------------------------------------------------------------
  // The add-on's code
  // ---------------------------------------------------------------------

  /**
   * The innermost body: create the phoneme's layer when missing, then try
   * `frames.new` and ignore its refusal. The store is `start` with the
   * voice's block being `layers` before, and the keyed layers after.
   */
  method AddKeyframe(host: Host, name: string, phoneme: Phoneme, ghost start: Pencils, ghost layers: Layers)
    requires host.pencils == start[name := layers]
    modifies host`pencils
    ensures host.pencils == start[name := AddKey(layers, phoneme)]
  {
    ghost var present := if phoneme.text in layers then layers else layers[phoneme.text := []];
    if phoneme.text !in host.pencils[name] {
      host.NewLayer(name, phoneme.text);
    } else {
      assert layers[phoneme.text := layers[phoneme.text]] == layers;
    }
    assert host.pencils == start[name := present];
    var created := host.NewFrame(name, phoneme.text, phoneme.frame);
  }

  method KeyPhonemes(host: Host, name: string, phonemes: seq<Phoneme>, ghost start: Pencils, ghost layers: Layers)
    requires host.pencils == start[name := layers]
    modifies host`pencils
    ensures host.pencils == start[name := AddKeys(layers, phonemes)]
  {
    assert phonemes[..0] == [];
    for m := 0 to |phonemes|
      invariant host.pencils == start[name := AddKeys(layers, phonemes[..m])]
    {
      AddKeysStep(layers, phonemes, m);
      AddKeyframe(host, name, phonemes[m], start, AddKeys(layers, phonemes[..m]));
    }
    assert phonemes[..|phonemes|] == phonemes;
  }

  lemma WordsKeysStep(layers: Layers, words: seq<Word>, k: nat)
    requires k < |words|
    ensures AddKeys(AddKeys(layers, WordsPhonemes(words[..k])), words[k].phonemes) == AddKeys(layers, WordsPhonemes(words[..k + 1]))
  {
    assert words[..k + 1][..k] == words[..k];
    AddKeysAppend(layers, WordsPhonemes(words[..k]), words[k].phonemes);
  }

  method KeyWords(host: Host, name: string, words: seq<Word>, ghost start: Pencils, ghost layers: Layers)
    requires host.pencils == start[name := layers]
    modifies host`pencils
    ensures host.pencils == start[name := AddKeys(layers, WordsPhonemes(words))]
  {
    assert words[..0] == [];
    for k := 0 to |words|
      invariant host.pencils == start[name := AddKeys(layers, WordsPhonemes(words[..k]))]
    {
      WordsKeysStep(layers, words, k);
      KeyPhonemes(host, name, words[k].phonemes, start, AddKeys(layers, WordsPhonemes(words[..k])));
    }
    assert words[..|words|] == words;
  }

  lemma PhrasesKeysStep(layers: Layers, phrases: seq<Phrase>, j: nat)
    requires j < |phrases|
    ensures AddKeys(AddKeys(layers, PhrasesPhonemes(phrases[..j])), WordsPhonemes(phrases[j].words))
      == AddKeys(layers, PhrasesPhonemes(phrases[..j + 1]))
  {
    assert phrases[..j + 1][..j] == phrases[..j];
    AddKeysAppend(layers, PhrasesPhonemes(phrases[..j]), WordsPhonemes(phrases[j].words));
  }

  method KeyPhrases(host: Host, name: string, phrases: seq<Phrase>, ghost start: Pencils, ghost layers: Layers)
    requires host.pencils == start[name := layers]
    modifies host`pencils
    ensures host.pencils == start[name := AddKeys(layers, PhrasesPhonemes(phrases))]
  {
    assert phrases[..0] == [];
    for j := 0 to |phrases|
      invariant host.pencils == start[name := AddKeys(layers, PhrasesPhonemes(phrases[..j]))]
    {
      PhrasesKeysStep(layers, phrases, j);
      KeyWords(host, name, phrases[j].words, start, AddKeys(layers, PhrasesPhonemes(phrases[..j])));
    }
    assert phrases[..|phrases|] == phrases;
  }

  /** The body of the voice loop: find or create the voice's block, then key its occurrences. */
  method KeyVoiceFrames(host: Host, voice: Voice)
    modifies host`pencils
    ensures host.pencils == KeyVoice(old(host.pencils), voice)
  {
    var name := voice.name;
    ghost var start := host.pencils;
    ghost var base := Block(start, name);
    if name !in host.pencils {
      host.NewGreasePencil(name);
    }
    assert host.pencils == start[name := base] by {
      if name in start {
        assert start[name := start[name]] == start;
      }
    }
    KeyPhrases(host, name, voice.phrases, start, base);
  }

  /** `create_keyframes` on an already parsed file. */
  method CreateKeyframes(host: Host, path: string, file: ProjectFile)
    requires Fits(path, file)
    modifies host
    ensures host.pencils == KeyAll(old(host.pencils), Voices(path, file))
    ensures host.fps == file.fps
    ensures host.frameStart == 0
    ensures host.frameEnd == NumFrames(path, file) * FramesSpacing
    ensures host.frameCurrent == old(host.frameCurrent)
  {
    host.fps := file.fps;
    var numFrames;
    if IsPg2(path) {
      numFrames := file.soundDuration;
    } else {
      numFrames := file.endFrame;
    }
    host.frameStart := 0;
    host.frameEnd := numFrames * FramesSpacing;
    var voiceList := CollectVoices(path, file);
    for i := 0 to |voiceList|
      invariant host.pencils == KeyAll(old(host.pencils), voiceList[..i])
      invariant host.fps == file.fps && host.frameStart == 0 && host.frameCurrent == old(host.frameCurrent)
      invariant host.frameEnd == numFrames * FramesSpacing
    {
      KeyVoicesStep(old(host.pencils), voiceList, i);
      KeyVoiceFrames(host, voiceList[i]);
    }
    assert voiceList[..|voiceList|] == voiceList;
  }

  lemma KeyVoicesStep(pencils: Pencils, voices: seq<Voice>, i: nat)
    requires i < |voices|
    ensures KeyAll(pencils, voices[..i + 1]) == KeyVoice(KeyAll(pencils, voices[..i]), voices[i])
  {
    assert voices[..i + 1][..i] == voices[..i];
  }
}
