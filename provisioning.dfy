/**
 * `create_grease_objects`: for every voice, find or create the grease-pencil
 * block named after it and, inside it, one layer per used phoneme; a layer
 * without frames gets a single empty frame at -1. The scene's frame rate and
 * frame range are set from the project.
 */
module Provisioning {
  import opened Papagayo
  import opened GreasePencil

  /** `FRAMES_SPACING`: the distance between frames. */
  const FramesSpacing := 1

  /** The frame a frameless phoneme layer is given: `frames.new(-1)`. */
  const Placeholder := Frame(-1, EmptyDrawing)

  /**
   * One used phoneme: afterwards its layer exists and has a frame (a layer
   * that already had frames is left alone, any other gets exactly the
   * placeholder frame), and every other layer is left as it was.
   */
  function EnsureLayer(layers: Layers, name: string): (r: Layers)
    ensures Readable(r, name)
    ensures r.Keys == layers.Keys + {name}
    ensures AddsOnly(layers, r)
    ensures forall l :: l in layers && l != name ==> r[l] == layers[l]
  {
    if Readable(layers, name) then layers else layers[name := [Placeholder]]
  }

  /**
   * `after` only adds to `before`: no layer disappears, a layer that had
   * frames keeps exactly those frames, and a layer that changed (or is new)
   * was frameless and now holds just the placeholder frame.
   */
  predicate AddsOnly(before: Layers, after: Layers)
  {
    before.Keys <= after.Keys &&
    forall l :: l in after ==>
      (l in before && after[l] == before[l]) ||
      ((l !in before || before[l] == []) && after[l] == [Placeholder])
  }

  predicate BlocksAddOnly(before: Pencils, after: Pencils)
  {
    before.Keys <= after.Keys &&
    forall b :: b in after ==> AddsOnly(Block(before, b), after[b])
  }

  /** The voice has its block, and every used phoneme of it a layer with at least one frame. */
  predicate VoiceProvisioned(pencils: Pencils, voice: Voice)
  {
    voice.name in pencils && forall k :: 0 <= k < |voice.usedPhonemes| ==> Readable(pencils[voice.name], voice.usedPhonemes[k])
  }

  predicate Provisioned(pencils: Pencils, voices: seq<Voice>)
  {
    forall i :: 0 <= i < |voices| ==> VoiceProvisioned(pencils, voices[i])
  }

  /** Some voice named `block` lists `layer` among its used phonemes. */
  predicate UsedBy(voices: seq<Voice>, block: string, layer: string)
  {
    exists i :: 0 <= i < |voices| && voices[i].name == block && layer in voices[i].usedPhonemes
  }

  lemma AddsOnlyTransitive(a: Layers, b: Layers, c: Layers)
    requires AddsOnly(a, b) && AddsOnly(b, c)
    ensures AddsOnly(a, c)
  {
    forall l | l in c
      ensures (l in a && c[l] == a[l]) || ((l !in a || a[l] == []) && c[l] == [Placeholder])
    {
      if l in b && c[l] == b[l] {
        assert (l in a && b[l] == a[l]) || ((l !in a || a[l] == []) && b[l] == [Placeholder]);
      } else {
        assert l in b ==> b[l] == [];
      }
    }
  }

  lemma AddsOnlyKeepsReadable(a: Layers, b: Layers, name: string)
    requires AddsOnly(a, b) && Readable(a, name)
    ensures Readable(b, name) && b[name] == a[name]
  {
    assert name in b;
  }

  /** The inner loop: every used phoneme of one voice, in order. */
  function EnsureLayers(layers: Layers, names: seq<string>): (r: Layers)
    ensures AddsOnly(layers, r)
    ensures forall k :: 0 <= k < |names| ==> Readable(r, names[k])
    ensures forall l :: l in r ==> l in layers || l in names
    ensures forall l :: l in layers && l !in names ==> r[l] == layers[l]
  {
    if names == [] then layers
    else
      var prev := EnsureLayers(layers, names[..|names| - 1]);
      var r := EnsureLayer(prev, names[|names| - 1]);
      AddsOnlyTransitive(layers, prev, r);
      assert forall l :: l in names[..|names| - 1] ==> l in names;
      assert forall k :: 0 <= k < |names| - 1 ==> Readable(prev, names[k]) && names[k] == names[..|names| - 1][k];
      assert forall k :: 0 <= k < |names| - 1 ==> Readable(r, names[k]) by {
        forall k | 0 <= k < |names| - 1 ensures Readable(r, names[k]) {
          AddsOnlyKeepsReadable(prev, r, names[k]);
        }
      }
      r
  }

  /**
   * One voice: its block (found or new) exists afterwards with a readable
   * layer per used phoneme, the block only gains, its layers that are no
   * used phoneme are left as they were, and every other block is left alone.
   */
  function EnsureVoice(pencils: Pencils, voice: Voice): (r: Pencils)
    ensures r.Keys == pencils.Keys + {voice.name}
    ensures forall b :: b in pencils && b != voice.name ==> r[b] == pencils[b]
    ensures forall k :: 0 <= k < |voice.usedPhonemes| ==> Readable(r[voice.name], voice.usedPhonemes[k])
    ensures AddsOnly(Block(pencils, voice.name), r[voice.name])
    ensures forall l :: l in Block(pencils, voice.name) && l !in voice.usedPhonemes ==>
      r[voice.name][l] == Block(pencils, voice.name)[l]
  {
    pencils[voice.name := EnsureLayers(Block(pencils, voice.name), voice.usedPhonemes)]
  }

  /** The outer loop: every voice, in order. */
  function EnsureVoices(pencils: Pencils, voices: seq<Voice>): (r: Pencils)
    ensures BlocksAddOnly(pencils, r)
    ensures Provisioned(r, voices)
    ensures r.Keys == pencils.Keys + set i | 0 <= i < |voices| :: voices[i].name
    ensures forall b, l :: b in r && l in r[b] ==> l in Block(pencils, b) || UsedBy(voices, b, l)
    ensures forall b, l :: b in pencils && l in pencils[b] && !UsedBy(voices, b, l) ==> r[b][l] == pencils[b][l]
  {
    if voices == [] then pencils
    else
      var init, voice := voices[..|voices| - 1], voices[|voices| - 1];
      SplitLast(voices);
      var prev := EnsureVoices(pencils, init);
      var r := EnsureVoice(prev, voice);
      EnsureVoiceStep(pencils, init, voice, prev, r);
      r
  }

  /** What one more voice does to the outer loop's guarantees. */
  lemma EnsureVoiceStep(pencils: Pencils, init: seq<Voice>, voice: Voice, prev: Pencils, r: Pencils)
    requires BlocksAddOnly(pencils, prev) && Provisioned(prev, init)
    requires prev.Keys == pencils.Keys + set i | 0 <= i < |init| :: init[i].name
    requires forall b, l :: b in prev && l in prev[b] ==> l in Block(pencils, b) || UsedBy(init, b, l)
    requires forall b, l :: b in pencils && l in pencils[b] && !UsedBy(init, b, l) ==> prev[b][l] == pencils[b][l]
    requires r == EnsureVoice(prev, voice)
    ensures BlocksAddOnly(pencils, r)
    ensures Provisioned(r, init + [voice])
    ensures r.Keys == pencils.Keys + set i | 0 <= i < |init + [voice]| :: (init + [voice])[i].name
    ensures forall b, l :: b in r && l in r[b] ==> l in Block(pencils, b) || UsedBy(init + [voice], b, l)
    ensures forall b, l :: b in pencils && l in pencils[b] && !UsedBy(init + [voice], b, l) ==> r[b][l] == pencils[b][l]
  {
    StepAddsOnly(pencils, voice, prev, r);
    StepProvisioned(init, voice, prev, r);
    StepKeys(pencils, init, voice, prev, r);
    StepOrigin(pencils, init, voice, prev, r);
    StepUnused(pencils, init, voice, prev, r);
  }

  /** A layer no voice so far lists keeps its frames through one more voice. */
  lemma StepUnused(pencils: Pencils, init: seq<Voice>, voice: Voice, prev: Pencils, r: Pencils)
    requires BlocksAddOnly(pencils, prev)
    requires forall b, l :: b in pencils && l in pencils[b] && !UsedBy(init, b, l) ==> prev[b][l] == pencils[b][l]
    requires r == EnsureVoice(prev, voice)
    ensures forall b, l :: b in pencils && l in pencils[b] && !UsedBy(init + [voice], b, l) ==> r[b][l] == pencils[b][l]
  {
    var voices := init + [voice];
    forall b, l | b in pencils && l in pencils[b] && !UsedBy(voices, b, l)
      ensures r[b][l] == pencils[b][l]
    {
      UsedByExtends(init, voice, b, l);
      assert l in prev[b] && prev[b][l] == pencils[b][l];
      if b == voice.name {
        assert voices[|init|] == voice;
        assert l !in voice.usedPhonemes;
      }
    }
  }

  lemma StepAddsOnly(pencils: Pencils, voice: Voice, prev: Pencils, r: Pencils)
    requires BlocksAddOnly(pencils, prev)
    requires r == EnsureVoice(prev, voice)
    ensures BlocksAddOnly(pencils, r)
  {
    var n := voice.name;
    var layers := EnsureLayers(Block(prev, n), voice.usedPhonemes);
    assert r == prev[n := layers];
    forall b | b in r ensures AddsOnly(Block(pencils, b), r[b]) {
      if b == n {
        assert AddsOnly(Block(pencils, b), Block(prev, b));
        AddsOnlyTransitive(Block(pencils, b), Block(prev, b), layers);
      }
    }
  }

  lemma StepProvisioned(init: seq<Voice>, voice: Voice, prev: Pencils, r: Pencils)
    requires Provisioned(prev, init)
    requires r == EnsureVoice(prev, voice)
    ensures Provisioned(r, init + [voice])
  {
    var voices := init + [voice];
    var n := voice.name;
    var layers := EnsureLayers(Block(prev, n), voice.usedPhonemes);
    forall i | 0 <= i < |voices| ensures VoiceProvisioned(r, voices[i]) {
      if i < |init| {
        assert voices[i] == init[i] && VoiceProvisioned(prev, init[i]);
        if init[i].name == n {
          forall k | 0 <= k < |init[i].usedPhonemes| ensures Readable(layers, init[i].usedPhonemes[k]) {
            AddsOnlyKeepsReadable(prev[n], layers, init[i].usedPhonemes[k]);
          }
        }
      }
    }
  }

  lemma StepKeys(pencils: Pencils, init: seq<Voice>, voice: Voice, prev: Pencils, r: Pencils)
    requires prev.Keys == pencils.Keys + set i | 0 <= i < |init| :: init[i].name
    requires r == EnsureVoice(prev, voice)
    ensures r.Keys == pencils.Keys + set i | 0 <= i < |init + [voice]| :: (init + [voice])[i].name
  {
    var voices := init + [voice];
    var n := voice.name;
    var names := set i | 0 <= i < |voices| :: voices[i].name;
    var initNames := set i | 0 <= i < |init| :: init[i].name;
    assert names == initNames + {n} by {
      forall x | x in names ensures x in initNames + {n} {
        var i :| 0 <= i < |voices| && voices[i].name == x;
        if i < |init| { assert init[i] == voices[i]; }
      }
      assert voices[|init|] == voice;
      forall x | x in initNames ensures x in names {
        var i :| 0 <= i < |init| && init[i].name == x;
        assert voices[i] == init[i];
      }
    }
  }

  lemma StepOrigin(pencils: Pencils, init: seq<Voice>, voice: Voice, prev: Pencils, r: Pencils)
    requires forall b, l :: b in prev && l in prev[b] ==> l in Block(pencils, b) || UsedBy(init, b, l)
    requires r == EnsureVoice(prev, voice)
    ensures forall b, l :: b in r && l in r[b] ==> l in Block(pencils, b) || UsedBy(init + [voice], b, l)
  {
    var voices := init + [voice];
    var n := voice.name;
    forall b, l | b in r && l in r[b] ensures l in Block(pencils, b) || UsedBy(voices, b, l) {
      if b == n && l !in Block(prev, n) {
        assert l in voice.usedPhonemes;
        assert voices[|init|] == voice;
      } else {
        assert l in prev[b];
        if UsedBy(init, b, l) {
          var i :| 0 <= i < |init| && init[i].name == b && l in init[i].usedPhonemes;
          assert voices[i] == init[i];
        }
      }
    }
  }

  lemma UsedByExtends(init: seq<Voice>, voice: Voice, b: string, l: string)
    ensures UsedBy(init, b, l) ==> UsedBy(init + [voice], b, l)
  {
    if UsedBy(init, b, l) {
      var i :| 0 <= i < |init| && init[i].name == b && l in init[i].usedPhonemes;
      assert (init + [voice])[i] == init[i];
    }
  }

  /** A block that no voice is named after comes out of provisioning exactly as it went in. */
  lemma OtherBlocksUnchanged(pencils: Pencils, voices: seq<Voice>, b: string)
    requires b in pencils
    requires forall i :: 0 <= i < |voices| ==> voices[i].name != b
    ensures EnsureVoices(pencils, voices)[b] == pencils[b]
  {
    var r := EnsureVoices(pencils, voices);
    assert forall l :: !UsedBy(voices, b, l);
    assert r[b].Keys == pencils[b].Keys;
    forall l | l in pencils[b] ensures r[b][l] == pencils[b][l] {
    }
  }

  lemma {:induction false} EnsureLayersFixes(layers: Layers, names: seq<string>)
    requires forall k :: 0 <= k < |names| ==> Readable(layers, names[k])
    ensures EnsureLayers(layers, names) == layers
  {
    if names != [] {
      var init := names[..|names| - 1];
      assert forall k :: 0 <= k < |init| ==> init[k] == names[k];
      EnsureLayersFixes(layers, init);
    }
  }

  lemma {:induction false} EnsureVoicesFixes(pencils: Pencils, voices: seq<Voice>)
    requires Provisioned(pencils, voices)
    ensures EnsureVoices(pencils, voices) == pencils
  {
    if voices != [] {
      var init, voice := voices[..|voices| - 1], voices[|voices| - 1];
      assert EnsureVoices(pencils, init) == pencils by {
        assert forall i :: 0 <= i < |init| ==> init[i] == voices[i];
        EnsureVoicesFixes(pencils, init);
      }
      assert EnsureVoice(pencils, voice) == pencils by {
        assert VoiceProvisioned(pencils, voice);
        EnsureVoiceFixes(pencils, voice);
      }
      EnsureVoicesLast(pencils, voices);
    }
  }

  lemma EnsureVoicesLast(pencils: Pencils, voices: seq<Voice>)
    requires voices != []
    ensures EnsureVoices(pencils, voices) == EnsureVoice(EnsureVoices(pencils, voices[..|voices| - 1]), voices[|voices| - 1])
  {
  }

  lemma EnsureVoiceFixes(pencils: Pencils, voice: Voice)
    requires VoiceProvisioned(pencils, voice)
    ensures EnsureVoice(pencils, voice) == pencils
  {
    EnsureLayersFixes(pencils[voice.name], voice.usedPhonemes);
    assert pencils[voice.name := pencils[voice.name]] == pencils;
  }

  /** A second provisioning run changes nothing. */
  lemma ProvisioningIdempotent(pencils: Pencils, voices: seq<Voice>)
    ensures EnsureVoices(EnsureVoices(pencils, voices), voices) == EnsureVoices(pencils, voices)
  {
    EnsureVoicesFixes(EnsureVoices(pencils, voices), voices);
  }

  lemma EnsureLayersStep(layers: Layers, names: seq<string>, i: nat)
    requires i < |names|
    ensures EnsureLayers(layers, names[..i + 1]) == EnsureLayer(EnsureLayers(layers, names[..i]), names[i])
  {
    assert names[..i + 1][..i] == names[..i];
  }

  /**
   * One used phoneme of one voice: find or create its layer, and give it a
   * frame at -1 when it has none. The store is `start` with the voice's
   * block being `layers`, before and after.
   */
  method ProvisionLayer(host: Host, name: string, phoneme: string, ghost start: Pencils, ghost layers: Layers)
    requires host.pencils == start[name := layers]
    modifies host`pencils
    ensures host.pencils == start[name := EnsureLayer(layers, phoneme)]
  {
    ghost var present := if phoneme in layers then layers[phoneme] else [];
    if phoneme !in host.pencils[name] {
      host.NewLayer(name, phoneme);
    }
    assert host.pencils == start[name := layers[phoneme := present]] by {
      if phoneme in layers {
        assert layers[phoneme := present] == layers;
      }
    }
    if |host.pencils[name][phoneme]| == 0 {
      var created := host.NewFrame(name, phoneme, -1);
      assert created by {
        assert !HasFrameAt([], -1);
      }
      assert host.pencils == start[name := layers[phoneme := [Placeholder]]] by {
        assert [] + [Frame(-1, EmptyDrawing)] == [Placeholder];
        assert layers[phoneme := present][phoneme := [Placeholder]] == layers[phoneme := [Placeholder]];
      }
    } else {
      assert layers[phoneme := present] == layers;
    }
  }

  /** The per-voice body of `create_grease_objects`, shared by its `.pg2` and legacy branches. */
  method ProvisionVoice(host: Host, voice: Voice)
    modifies host`pencils
    ensures host.pencils == EnsureVoice(old(host.pencils), voice)
  {
    var name := voice.name;
    ghost var start := host.pencils;
    ghost var base := Block(start, name);
    if name !in host.pencils {
      host.NewGreasePencil(name);
    }
    assert host.pencils == start[name := base] by {
      if name in start {
        assert start[name := start[name]] == start;
      }
    }
    var used := voice.usedPhonemes;
    assert EnsureLayers(base, used[..0]) == base;
    for i := 0 to |used|
      invariant host.pencils == start[name := EnsureLayers(base, used[..i])]
    {
      EnsureLayersStep(base, used, i);
      ProvisionLayer(host, name, used[i], start, EnsureLayers(base, used[..i]));
    }
    assert used[..|used|] == used;
  }

  /** `create_grease_objects` on an already parsed file, without the sound loading. */
  method CreateGreaseObjects(host: Host, path: string, file: ProjectFile)
    requires Fits(path, file)
    modifies host
    ensures host.pencils == EnsureVoices(old(host.pencils), Voices(path, file))
    ensures host.fps == file.fps
    ensures host.frameStart == -1 && host.frameCurrent == -1
    ensures host.frameEnd == NumFrames(path, file) * FramesSpacing
  {
    host.fps := file.fps;
    var numFrames;
    if IsPg2(path) {
      numFrames := file.soundDuration;
    } else {
      numFrames := file.endFrame;
    }
    host.frameStart := -1;
    host.frameEnd := numFrames * FramesSpacing;
    host.frameCurrent := -1;
    if IsPg2(path) {
      for i := 0 to |file.voices|
        invariant host.pencils == EnsureVoices(old(host.pencils), file.voices[..i])
        invariant host.fps == file.fps && host.frameStart == -1 && host.frameCurrent == -1
        invariant host.frameEnd == numFrames * FramesSpacing
      {
        ProvisionVoice(host, file.voices[i]);
        assert file.voices[..i + 1][..i] == file.voices[..i];
      }
      assert file.voices[..|file.voices|] == file.voices;
    } else {
      ProvisionVoice(host, file.voice);
      assert [file.voice][..0] == [];
    }
  }
}
