# Papagayo-NG importer for Blender, modelled in Dafny

The add-on in `papagayo_import.py` takes a Papagayo-NG lip-sync project, loaded with `json.load`, and turns it into Blender grease-pencil data. A project is either a `.pg2` file with a list of voices or a legacy `.json` file holding one voice. Each voice has phrases, each phrase has words, and each word has timed phoneme occurrences. Each grease-pencil block belongs to one voice, and each layer of a block to one mouth shape. The add-on has four routines, and this project models each of them:

- **listing the used phonemes** (`get_list_of_phonemes`). For each voice it emits a `name:` header, then the voice's used phonemes, two per line.
- **provisioning** (`create_grease_objects`). It finds or creates the voice's block, and one layer per used phoneme. It gives every frameless used-phoneme layer one empty frame at -1. It also sets the scene's frame rate and frame range.
- **filling the timeline** (`fill_timeline`). It empties or creates each voice's `<name>combined` layer, then walks phrases, words and phonemes in file order.
  - For each phoneme occurrence, it copies the last frame of the phoneme's layer onto the combined layer, at the occurrence's frame.
  - With rest frames enabled, a phrase or word that starts after `last_pos + 1` is first preceded by a copy of the `rest` layer's last frame, at `last_pos + 1`.
- **creating keyframes** (`create_keyframes`). For each occurrence it adds an empty frame at the occurrence's frame, on the phoneme's layer, unless that layer already has a frame there: `frames.new` then raises `RuntimeError`, which the add-on swallows (`papagayo_import.py:267-270`). It first creates the block and the layer if they are missing.

All four routines share the same step that picks the voice list from the file name.

## Modules

- `papagayo.dfy` (`Papagayo`) holds the parsed project as datatypes, the `.pg2` test, the voice list (`Voices`, and the loop `CollectVoices` that builds it), `NUM_FRAMES`, and the flattening of a voice into its phoneme occurrences in file order.
- `listing.dfy` (`UsedPhonemes`) holds the phoneme listing. It is a pure function, built from Python's `[::2]`, `[1::2]` and `zip`.
- `gpencil.dfy` (`GreasePencil`) holds the host store.
  - Blocks map to layers, and layers map to frames in collection order. A frame is a number plus a content id.
  - The class `Host` holds the store and the scene settings. Its methods are the `bpy` primitives the add-on calls.
  - `frames.new` refuses a number the layer already has. The add-on's `RuntimeError` path comes from that refusal.
- `provisioning.dfy` (`Provisioning`) holds `create_grease_objects`. It has a method per loop over `Host`. Each method is specified by the pure functions `EnsureLayer`, `EnsureLayers`, `EnsureVoice` and `EnsureVoices`.
- `timeline.dfy` (`Timeline`) holds `fill_timeline`.
  - What a voice copies, and where, is a pure copy plan (`VoicePlan`). It depends only on the project, the option and `last_pos`.
  - `ApplyCopies` carries the plan out on the voice's layers.
  - The loop methods (`FillPhonemes`, `FillWord`, `FillWords`, `FillPhrase`, `FillPhrases`, `FillVoiceTimeline` and `FillTimeline`) are proved to leave the store equal to the plan applied to it. The lemmas then state what the plan and its application contain.
- `keyframes.dfy` (`Keyframes`) holds `create_keyframes`. It follows the same pattern: pure `AddKey`, `AddKeys`, `KeyVoice` and `KeyAll`, and one method per loop.

## Behaviour worth noting

- **Placeholder frame.** Provisioning gives a frameless layer one empty frame numbered -1. It also sets `frame_start` and `frame_current` to -1. `create_keyframes` sets `frame_start` to 0 and leaves `frame_current` alone.
- **Combined layer name.** It is the voice name followed directly by `combined` (`papagayo_import.py:200-203`).
- **`last_pos`.** It is set to 0 once, before the voice loop (`papagayo_import.py:190`). It carries over from one voice to the next (`VoicesLast`).
- **Missing layers.** A missing `rest` layer or phoneme layer makes the add-on fail with a key lookup error. A source layer with no frame to copy makes it fail with an index error. The model states both as preconditions: `CanApply`, `CanFillVoice` and `CanFill`.
- **Repeated frame numbers.** Copies on the combined layer are appended in walk order, and no copy replaces an earlier frame. When a phrase and its first word both start past `last_pos + 1`, two rest copies with the same number are appended (`PhraseGapRestsTwice`).
- **Gap checks.** The rest-gap rule runs before each phrase and before each word, and never between the phonemes of one word (`OneWordScenario`, `TwoWordScenario`).

## Model

| member | source | states |
|---|---|---|
| Papagayo.CollectVoices | papagayo_import.py:192-196 | the voice list is the file's `voices` list for a `.pg2` path and the single top-level voice otherwise (the same loop is at 250-255) |
| Papagayo.Voices | papagayo_import.py:191-196 | definition of the normalised voice list: the `voices` list of a `.pg2` file, otherwise the top-level voice alone; it has no contract of its own, and `CollectVoices` is proved to build exactly it |
| Papagayo.NumFrames | papagayo_import.py:152-154 | definition of `NUM_FRAMES`: the sound duration for `.pg2`, otherwise the end frame (the same choice is at 244-246); it has no contract of its own, and `CreateGreaseObjects` and `CreateKeyframes` state the `frame_end` built from it |
| Papagayo.IsPg2 | papagayo_import.py:113 | definition of the `.pg2` test, `file_path.endswith(".pg2")` (the same test is at 131, 159, 192, 244 and 251); the routines that branch on it state each branch |
| Papagayo.Occurrences | papagayo_import.py:204-220 | definition of the walk order shared by both loops: phrases in order, their words in order, their phonemes in order (the same walk is at 262-264); `PlanPlacesEveryOccurrence`, `Keyframes.AddKeys` and the loop methods state what is done along it |
| UsedPhonemes.EvenItems | papagayo_import.py:116 | Python's `s[::2]`: ⌈n/2⌉ items, item k is `s[2k]` |
| UsedPhonemes.OddItems | papagayo_import.py:116 | Python's `s[1::2]`: ⌊n/2⌋ items, item k is `s[2k+1]` |
| UsedPhonemes.Zip | papagayo_import.py:116 | `zip` stops at the shorter list, and pair k is the two k-th items |
| UsedPhonemes.PairLine | papagayo_import.py:117 | definition of one listing line: the left phoneme, two spaces, a bar, two spaces, the right phoneme; `PairLines` and `VoiceLines` state where these lines fall |
| UsedPhonemes.Header | papagayo_import.py:115 | definition of a voice's heading line, its name followed by `:` (the legacy branch builds the same line at 119); `VoiceLines` and `Listing` state that it opens each voice's lines |
| UsedPhonemes.PairLines | papagayo_import.py:116-117 | one voice has exactly ⌊n/2⌋ pair lines, and line k shows `used[2k]` and `used[2k+1]` around the two-space bar separator |
| UsedPhonemes.VoiceLines | papagayo_import.py:115-117 | one voice contributes exactly 1 + ⌊n/2⌋ lines: its `name:` header first, then line k + 1 showing `used[2k]` and `used[2k+1]` |
| UsedPhonemes.Listing | papagayo_import.py:113-117 | the listing is empty exactly when there are no voices, and otherwise opens with the first voice's header |
| UsedPhonemes.PhonemeListing | papagayo_import.py:109-123 | `get_list_of_phonemes` has one header plus ⌊n/2⌋ lines per voice of the normalised list, and for a legacy file it is exactly the single voice's lines (119-121) |
| UsedPhonemes.OddCountDropsLast | papagayo_import.py:116 | with an odd number of used phonemes, the last one is not listed |
| UsedPhonemes.VoiceLayout | papagayo_import.py:113-121 | voice i contributes one header `name:` at its own index, then exactly its pair lines, and the next voice's header follows directly |
| UsedPhonemes.ListingLength | papagayo_import.py:112-121 | the listing has one header plus ⌊n/2⌋ lines per voice, and nothing else |
| UsedPhonemes.ListingAppend | papagayo_import.py:114-117 | each voice's lines are emitted independently of the other voices, in voice order |
| GreasePencil.LastFrame | papagayo_import.py:169 | definition of `frames[-1]` on the model's frame list: the last frame in the list, defined only when the layer exists and has a frame, as `frames[-1]` raises otherwise (the same lookup is at 207, 213 and 217); `Host.GetLastFrame` states it for the store |
| GreasePencil.Host.NewGreasePencil | papagayo_import.py:163 | a new block with no layers, and nothing else changes |
| GreasePencil.Host.NewLayer | papagayo_import.py:166 | a new layer with no frames, and nothing else changes |
| GreasePencil.Host.ClearLayer | papagayo_import.py:201 | `clear()` empties just that layer |
| GreasePencil.Host.GetLastFrame | papagayo_import.py:169 | `frames[-1]` is the layer's last frame, and the layer contains it |
| GreasePencil.Host.NewFrame | papagayo_import.py:267-270 | `frames.new(n)` succeeds iff the layer has no frame numbered n; on success it appends an empty frame n, and on refusal nothing changes |
| GreasePencil.Host.CopyFrame | papagayo_import.py:208-209 | `frames.copy` then setting `frame_number` appends a frame with the source's content at the new number |
| Provisioning.EnsureLayers | papagayo_import.py:164-171 | after one voice's used-phoneme loop, every used phoneme has a layer with a frame; no layer is lost; a layer with frames keeps exactly its frames; a changed or new layer holds just the frame at -1; no other layer appears; and every layer that is not a used phoneme is left exactly as it was |
| Provisioning.EnsureLayer | papagayo_import.py:165-171 | one used phoneme: afterwards its layer exists and has a frame; the layer set gains just that name; a layer with frames keeps them, a frameless one gets just the frame at -1; and every other layer is left exactly as it was |
| Provisioning.EnsureVoice | papagayo_import.py:161-171 | one voice: its block exists afterwards with a layer with a frame per used phoneme; the block only gains; its layers that are no used phoneme are left exactly as they were; and every other block is left exactly as it was |
| Provisioning.EnsureVoices | papagayo_import.py:160-183 | after the voice loop, the blocks are the old ones plus one per voice name; every voice's used phonemes have layers with frames; blocks only gain; every new layer is a used phoneme of its block's voice; and every layer that no voice of that name uses is left exactly as it was |
| Provisioning.EnsureLayersFixes | papagayo_import.py:164-171 | when every used phoneme already has a layer with a frame, the loop changes nothing |
| Provisioning.EnsureVoiceFixes | papagayo_import.py:161-171 | a voice that is already provisioned is left as it is |
| Provisioning.EnsureVoicesFixes | papagayo_import.py:160-171 | when every voice is already provisioned, provisioning changes nothing |
| Provisioning.OtherBlocksUnchanged | papagayo_import.py:160-171 | a block that no voice is named after comes out of provisioning exactly as it went in |
| Provisioning.ProvisioningIdempotent | papagayo_import.py:160-183 | a second provisioning run leaves exactly what the first one left |
| Provisioning.ProvisionLayer | papagayo_import.py:165-171 | the loop body creates the layer when it is missing, and adds the frame at -1 when the layer has no frame |
| Provisioning.ProvisionVoice | papagayo_import.py:161-171 | one voice's body finds or creates the block, then provisions each used phoneme in order |
| Provisioning.CreateGreaseObjects | papagayo_import.py:125-184 | the store ends as `EnsureVoices` of the voice list; fps comes from the file; `frame_start` and `frame_current` are -1; and `frame_end` is `NUM_FRAMES * 1`, where `NUM_FRAMES` is the sound duration for `.pg2` and the end frame otherwise |
| Timeline.CombinedLayer | papagayo_import.py:200 | definition of the combined layer's name, the voice name followed by `combined` |
| Timeline.Cleared | papagayo_import.py:200-203 | definition of the clear-or-new step: the combined layer, emptied if it exists and created empty if not, every other layer as it was; `FillVoice` and `FillVoiceTimeline` state its effect |
| Timeline.PhonemesLast | papagayo_import.py:220 | definition of `last_pos` after a word's phonemes: the last phoneme's frame, or the value it came in with when the word has none; `VoicesLast` states where the value can come from |
| Timeline.WordsLast | papagayo_import.py:210-220 | definition of `last_pos` after a phrase's words, each word's phonemes updating it in turn; `VoicesLast` states where it can come from |
| Timeline.PhrasesLast | papagayo_import.py:204-220 | definition of `last_pos` after a voice's phrases, each phrase's words updating it in turn; `VoicesLast` states where it can come from |
| Timeline.PhonemeCopies | papagayo_import.py:216-219 | one phoneme copy per occurrence of a word, in order |
| Timeline.RestBefore | papagayo_import.py:205-215 | the rest-gap check adds at most one copy; that copy is a rest copy at `last_pos + 1`, which lies before the start frame; and with the option off it adds nothing |
| Timeline.WordPlan | papagayo_import.py:211-219 | definition of one word's copies: its rest-gap check, then its phoneme copies; `WordRestIff` and `FillWord` state what it means |
| Timeline.WordsPlan | papagayo_import.py:210-220 | definition of the word loop's copies, each word seeing the `last_pos` the words before it left; `WordsPlanSize` and `FillWords` state what it means |
| Timeline.PhrasePlan | papagayo_import.py:205-220 | definition of one phrase's copies: its own rest-gap check, then its words' copies; `PhraseRestIff`, `PhraseGapRestsTwice` and `FillPhrase` state what it means |
| Timeline.PhrasesPlan | papagayo_import.py:204-220 | definition of the phrase loop's copies, each phrase seeing the `last_pos` the phrases before it left; `PhrasesPlanSize` and `FillPhrases` state what it means |
| Timeline.VoicePlan | papagayo_import.py:204-220 | definition of everything one voice copies, in order; the lemmas below state what it contains |
| Timeline.WordsPlanSize | papagayo_import.py:210-220 | the word loop makes one copy per occurrence and at most one rest copy per word |
| Timeline.PhrasesPlanSize | papagayo_import.py:204-220 | the phrase loop makes one copy per occurrence and at most one rest copy per phrase and per word |
| Timeline.VoicePlanSize | papagayo_import.py:204-220 | a voice's plan holds one copy per occurrence and at most one rest copy per gap check, with the option on or off |
| Timeline.VoicesLast | papagayo_import.py:190-220 | `last_pos` after some voices is its starting value or the frame of some voice's last occurrence |
| Timeline.FillVoice | papagayo_import.py:199-220 | filling one voice adds no block, and leaves its combined layer with exactly one frame per planned copy |
| Timeline.ApplyCopies | papagayo_import.py:207-219 | copying changes only the combined layer; that layer keeps its frames and gains exactly one frame per copy |
| Timeline.ApplyCopiesFrame | papagayo_import.py:217-219 | the frame that copy i appends carries copy i's target number and the content of its source's last frame, as it was just before copy i |
| Timeline.FillVoiceChangesOnlyCombined | papagayo_import.py:200-219 | filling one voice leaves every other block exactly as it was, and changes no layer of its own block other than the combined layer |
| Timeline.FillAll | papagayo_import.py:198-220 | over all voices, with `last_pos` carried over between them, no block appears or disappears, and only combined layers change |
| Timeline.FillAllStep | papagayo_import.py:198-220 | pass i of the voice loop is `FillVoice` of voice i on the blocks the earlier passes left, with the `last_pos` they left, and it hands on the `last_pos` voice i ends with |
| Timeline.FillAllUntouched | papagayo_import.py:198-220 | a block that no voice is named after comes out of the voice loop exactly as it went in |
| Timeline.FillAllKeepsBlock | papagayo_import.py:198-220 | one pass of the voice loop leaves every block not named after that voice as the earlier passes left it |
| Timeline.FillAllLater | papagayo_import.py:198-220 | the passes after voice i, for voices with other names, leave voice i's block as voice i left it |
| Timeline.VoiceBlockAfterAll | papagayo_import.py:198-220 | after the whole voice loop, the block of a voice whose name no later voice repeats is what `FillVoice` made of it, given the blocks and the `last_pos` the earlier voices left |
| Timeline.FilledVoiceCombined | papagayo_import.py:198-220 | after the whole voice loop, such a voice's combined layer holds exactly one frame per copy of its plan (with the `last_pos` the earlier voices left); copy k's frame has copy k's target number and the content of its source layer's last frame from before the loop |
| Timeline.RestOffFilledVoice | papagayo_import.py:198-220 | with rest frames off, after the whole voice loop, such a voice's combined layer holds exactly one frame per occurrence, in file order, frame k numbered as occurrence k and showing the last frame of that phoneme's layer from before the loop |
| Timeline.PlanPlacesEveryOccurrence | papagayo_import.py:204-220 | with the option on or off, the phoneme copies of a voice are exactly its occurrences, once each, in phrase, word, phoneme order |
| Timeline.RestOffPlan | papagayo_import.py:205-220 | with rest frames off, no rest copy is made, and the plan is one phoneme copy per occurrence |
| Timeline.VoiceLastPos | papagayo_import.py:216-220 | after a voice, `last_pos` is the frame of its last occurrence, or unchanged when it has none |
| Timeline.RestCopiesFollowLastPos | papagayo_import.py:205-215 | every rest copy is numbered one past the frame of the last occurrence copied before it, or one past the starting `last_pos` when none was |
| Timeline.WordRestIff | papagayo_import.py:211-215 | a word gets a rest copy iff the option is on and `start_frame > last_pos + 1`, and that copy comes first, at `last_pos + 1` |
| Timeline.PhraseRestIff | papagayo_import.py:205-210 | a phrase adds one rest copy at `last_pos + 1` ahead of its words' copies iff the option is on and `start_frame > last_pos + 1`; otherwise it adds only its words' copies |
| Timeline.PhraseGapRestsTwice | papagayo_import.py:205-215 | when a phrase and its first word both start past `last_pos + 1`, two rest copies at `last_pos + 1` are made in a row |
| Timeline.OneWordScenario | papagayo_import.py:210-220 | for the one-word `AI` at 0, `E` at 10 voice, exactly `AI`@0 then `E`@10 are copied, with or without rest frames |
| Timeline.TwoWordScenario | papagayo_import.py:210-220 | with the same phonemes in two words, the second starting at 5, and rest frames on, the copies are `AI`@0, rest@1, `E`@10 |
| Timeline.FilledCombinedLayer | papagayo_import.py:199-220 | afterwards the combined layer holds exactly one frame per planned copy, in plan order; copy i's frame has its target number and the content of its source layer's last frame from before the fill |
| Timeline.FilledFrame | papagayo_import.py:216-219 | frame i of the filled combined layer, as in `FilledCombinedLayer` |
| Timeline.PlanAvoidsCombined | papagayo_import.py:207-217 | when no occurrence is named like the combined layer, no copy of the plan reads the combined layer (`rest` is shorter than any `<name>combined`) |
| Timeline.RestOffCombinedLayer | papagayo_import.py:216-220 | with rest frames off, the combined layer holds exactly one frame per occurrence, in file order; frame i has occurrence i's frame number and the content of the last frame of layer `text` |
| Timeline.CopyOne | papagayo_import.py:217-219 | one copy takes the store from the plan done so far to the plan extended by that copy |
| Timeline.FillGap | papagayo_import.py:205-209 | the rest check makes exactly the rest-gap rule's copy, or none |
| Timeline.FillPhonemes | papagayo_import.py:216-220 | the phoneme loop applies the word's phoneme copies, and `last_pos` ends at the last occurrence's frame, or unchanged |
| Timeline.FillWord | papagayo_import.py:211-220 | one word's body applies `WordPlan` and updates `last_pos` |
| Timeline.FillWords | papagayo_import.py:210-220 | the word loop applies the words' plan in order and returns the `last_pos` it reaches |
| Timeline.FillPhrase | papagayo_import.py:205-220 | one phrase's body applies `PhrasePlan` |
| Timeline.FillPhrases | papagayo_import.py:204-220 | the phrase loop applies the voice's whole plan to the cleared layers |
| Timeline.FillVoiceTimeline | papagayo_import.py:199-220 | clearing or creating the combined layer, then the phrase loop, gives exactly `FillVoice`, and returns the new `last_pos` |
| Timeline.FillTimeline | papagayo_import.py:187-236 | the store ends as `FillAll` of the voice list, starting from `last_pos = 0` |
| Keyframes.AddKey | papagayo_import.py:265-270 | a key creates the layer if it is missing and guarantees a frame at the occurrence's frame; other layers are untouched; an existing layer keeps its frames as a prefix; and an existing frame number changes nothing |
| Keyframes.AddKeys | papagayo_import.py:263-270 | afterwards every occurrence's layer has a frame at its frame; existing layers only gain frames; and every new layer is an occurrence's phoneme |
| Keyframes.AddKeysFixes | papagayo_import.py:267-270 | keying occurrences whose frames all exist already changes nothing |
| Keyframes.AddKeysKeepsDistinct | papagayo_import.py:267-270 | if no layer had two frames with the same number, none has afterwards |
| Keyframes.AddKeysNewFrames | papagayo_import.py:265-270 | every frame added is empty, and sits at an occurrence's frame on that occurrence's phoneme layer |
| Keyframes.KeyAll | papagayo_import.py:257-270 | after the voice loop, every voice's block exists and keys all the voice's occurrences; blocks only gain frames; and every new block is a voice's name (`KeyAllNewLayers` states which layers a block can gain) |
| Keyframes.KeyVoice | papagayo_import.py:259-270 | one voice: its block exists afterwards and keys every occurrence; the block only gains frames, and every frame it gains is empty and numbered as an occurrence of that layer's phoneme; every layer the block gains is the phoneme of one of the voice's occurrences; and every other block is left exactly as it was |
| Keyframes.KeyAllNewFrames | papagayo_import.py:257-270 | every frame the voice loop adds to a layer is empty, and is numbered as an occurrence of that layer's phoneme in a voice named after the block |
| Keyframes.KeyAllNewLayers | papagayo_import.py:257-270 | every layer the voice loop adds to a block is the phoneme of some occurrence of a voice named after that block |
| Keyframes.KeyAllUntouched | papagayo_import.py:257-270 | a block that no voice is named after comes out of the voice loop exactly as it went in |
| Keyframes.KeyingIdempotent | papagayo_import.py:257-270 | a second run of the keyframe loop changes nothing |
| Keyframes.AddKeyframe | papagayo_import.py:265-270 | the innermost body, including the swallowed `RuntimeError`, is exactly `AddKey` |
| Keyframes.KeyPhonemes | papagayo_import.py:264-270 | the phoneme loop keys the occurrences in order |
| Keyframes.KeyWords | papagayo_import.py:263-270 | the word loop keys the words' occurrences in order |
| Keyframes.KeyPhrases | papagayo_import.py:262-270 | the phrase loop keys the voice's occurrences in order |
| Keyframes.KeyVoiceFrames | papagayo_import.py:259-270 | one voice's body finds or creates the block, then keys its occurrences |
| Keyframes.CreateKeyframes | papagayo_import.py:239-270 | the store ends as `KeyAll` of the voice list; fps comes from the file; `frame_start` is 0; `frame_end` is `NUM_FRAMES * 1`; and `frame_current` is untouched |

## Left out

- The Blender UI parts, which are interface and host registration only and contain no logic:
  - operators;
  - the panel;
  - the property group;
  - the file browser;
  - `register` and `unregister` (`papagayo_import.py:21-107`, `272-288`).
- Sound handling (`papagayo_import.py:132-143`):
  - resolving `sound_path` against the project's directory;
  - `sound.open_mono`;
  - the sequencer strip;
  - switching the editor area.

  All of it is host I/O and depends on the operating system's path rules. The model assumes this step succeeds. If it fails, the routine stops with only the frame rate set: `bpy.data.sounds[0]` raises `IndexError` when no sound was loaded (`papagayo_import.py:137-139`), and `sound_strip_add` can raise (`papagayo_import.py:142`). The frame range (`papagayo_import.py:156-158`) and the blocks and layers (`papagayo_import.py:160-183`) are then never set up.
- Opening the file and `json.load`. The project is an already-parsed `ProjectFile`. The JSON value types are fixed: integers for frames and fps, strings for names.
- Keys a routine does not read. `Fits` only ties the `.pg2` suffix to the constructor. Each constructor carries every key that any of the four routines reads, so each routine is modelled on files that hold them all. The add-on would also accept a file lacking a key that the routine at hand never reads. Examples: `fill_timeline` reads neither `fps` nor `used_phonemes`, and `create_keyframes` does not read `used_phonemes`. For such a routine the value of such a key is arbitrary, and no statement about the routine depends on it.
- The commented-out speaker block and the alternative rest loop (`papagayo_import.py:145-151`, `222-235`), because they are dead code.
- The Krita docker (`krita_papagayo_import.py` and its `__init__.py`). It has no logic, and it is not part of this model.
- How Blender orders frames. `frames.new` and `frames.copy` are modelled as appending to the layer's frame sequence. Blender keeps a layer's frames sorted by number, so in Blender `frames[-1]` is the highest-numbered frame. In the model, `LastFrame` and `GetLastFrame` return the frame created last. The two agree while frames are created in increasing number order, and differ otherwise. In particular:
  - when `create_keyframes` keys a layer out of number order, the model's `fill_timeline` copies the last-keyed frame of that layer, while Blender would copy its highest-numbered frame;
  - `AddKey`'s "existing frames stay a prefix" and every other statement about frame positions are about creation order, not about Blender's sorted order.
- Two frames with the same number on the combined layer are kept as two frames. The model does not say how Blender resolves them.
- Integer and name limits. Frame numbers, `fps` and the scene's frame range are unbounded integers in the model, while Blender stores them as bounded C integers. Values outside those bounds are not modelled. Blender's length limit on block and layer names is not modelled either.
- Frame content is an opaque id (`Content`). Strokes and the copying of stroke data are not modelled.
- The rest-frames checkbox is the parameter `restFrames`. The scene property it comes from is not modelled.
- Timeline.FilledCombinedLayer: assumes that no phoneme occurrence is named like the combined layer itself. Such a file makes the add-on copy frames from the layer it is filling. That case is allowed by `CanApply` and covered by `ApplyCopiesFrame`, but not by this closed-form statement.
- Timeline.FilledFrame: assumes the same thing, for the same reason.
- Timeline.RestOffCombinedLayer: assumes the same thing, for the same reason.
- Timeline.FilledVoiceCombined: assumes the same thing, for the same reason. It also assumes that no later voice has the same name. A later voice with that name clears the combined layer again and refills it with its own copies, so the earlier voice's frames do not survive the loop. `FillAllStep` and `FillVoiceChangesOnlyCombined` state the general case, one pass at a time.
- Timeline.RestOffFilledVoice: assumes both of the things `FilledVoiceCombined` assumes, for the same reasons.
- Timeline.VoiceBlockAfterAll: assumes that no later voice has the same name, for the reason given for `FilledVoiceCombined`.
- Timeline.FillAllLater: assumes that no later voice has the same name, for the reason given for `FilledVoiceCombined`.
