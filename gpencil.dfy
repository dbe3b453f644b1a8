/**
 * The part of Blender's data the add-on works on: grease-pencil blocks
 * (`bpy.data.grease_pencils`) looked up by name, the layers of each block
 * looked up by name, the frames of each layer in collection order, and the
 * scene's frame rate and frame range.
 */
module GreasePencil {

  /** A drawing, compared by value: two frames with equal content show the same strokes. */
  type Content = nat

  /** The content of a frame made by `frames.new`: no strokes yet. */
  const EmptyDrawing: Content := 0

  datatype Frame = Frame(number: int, content: Content)

  /** The layers of one grease-pencil block, by name; each holds its frames in collection order. */
  type Layers = map<string, seq<Frame>>

  /** All grease-pencil blocks, by name. */
  type Pencils = map<string, Layers>

  predicate HasFrameAt(frames: seq<Frame>, number: int)
  {
    exists i :: 0 <= i < |frames| && frames[i].number == number
  }

  /** `layers[name].frames[-1]` succeeds: the layer exists and has a frame. */
  predicate Readable(layers: Layers, name: string)
  {
    name in layers && |layers[name]| > 0
  }

  /** `layers[name].frames[-1]`. */
  function LastFrame(layers: Layers, name: string): Frame
    requires Readable(layers, name)
  {
    layers[name][|layers[name]| - 1]
  }

  /** The layers of block `name`, or none when the block does not exist yet. */
  function Block(pencils: Pencils, name: string): Layers
  {
    if name in pencils then pencils[name] else map[]
  }

  /** The host: Blender's data blocks and the scene settings the add-on writes. */
  class Host {
    var pencils: Pencils
    /** `scene.render.fps` */
    var fps: int
    /** `scene.frame_start`, `scene.frame_end`, `scene.frame_current` */
    var frameStart: int
    var frameEnd: int
    var frameCurrent: int

    constructor (pencils: Pencils, fps: int, frameStart: int, frameEnd: int, frameCurrent: int)
      ensures this.pencils == pencils && this.fps == fps
      ensures this.frameStart == frameStart && this.frameEnd == frameEnd && this.frameCurrent == frameCurrent
    {
      this.pencils := pencils;
      this.fps := fps;
      this.frameStart := frameStart;
      this.frameEnd := frameEnd;
      this.frameCurrent := frameCurrent;
    }

    /** `bpy.data.grease_pencils.new(name)`: a block with no layers. */
    method NewGreasePencil(name: string)
      requires name !in pencils
      modifies this`pencils
      ensures pencils == old(pencils)[name := map[]]
    {
      pencils := pencils[name := map[]];
    }

    /** `layers.new(layer)` on block `block`: a layer with no frames. */
    method NewLayer(block: string, layer: string)
      requires block in pencils && layer !in pencils[block]
      modifies this`pencils
      ensures pencils == old(pencils)[block := old(pencils)[block][layer := []]]
    {
      pencils := pencils[block := pencils[block][layer := []]];
    }

    /** `layers[layer].clear()`: the layer loses all its frames. */
    method ClearLayer(block: string, layer: string)
      requires block in pencils && layer in pencils[block]
      modifies this`pencils
      ensures pencils == old(pencils)[block := old(pencils)[block][layer := []]]
    {
      pencils := pencils[block := pencils[block][layer := []]];
    }

    /** `layers[layer].frames[-1]`. */
    method GetLastFrame(block: string, layer: string) returns (frame: Frame)
      requires block in pencils && Readable(pencils[block], layer)
      ensures frame == LastFrame(pencils[block], layer)
      ensures frame in pencils[block][layer]
    {
      var frames := pencils[block][layer];
      frame := frames[|frames| - 1];
    }

    /**
     * `layers[layer].frames.new(number)`: adds an empty frame, or refuses
     * with a `RuntimeError` (here `created == false`) when the layer already
     * has a frame with that number.
     */
    method NewFrame(block: string, layer: string, number: int) returns (created: bool)
      requires block in pencils && layer in pencils[block]
      modifies this`pencils
      ensures created == !HasFrameAt(old(pencils)[block][layer], number)
      ensures pencils == if created
        then old(pencils)[block := old(pencils)[block][layer := old(pencils)[block][layer] + [Frame(number, EmptyDrawing)]]]
        else old(pencils)
    {
      var frames := pencils[block][layer];
      var i := 0;
      while i < |frames| && frames[i].number != number
        invariant 0 <= i <= |frames|
        invariant forall j :: 0 <= j < i ==> frames[j].number != number
      {
        i := i + 1;
      }
      created := i == |frames|;
      if created {
        pencils := pencils[block := pencils[block][layer := frames + [Frame(number, EmptyDrawing)]]];
      }
    }

    /**
     * `layers[layer].frames.copy(source)` followed by setting the copy's
     * `frame_number`: the layer gains, at its end, a frame showing the
     * source's drawing at `number`.
     */
    method CopyFrame(block: string, layer: string, source: Frame, number: int)
      requires block in pencils && layer in pencils[block]
      modifies this`pencils
      ensures pencils == old(pencils)[block := old(pencils)[block][layer := old(pencils)[block][layer] + [Frame(number, source.content)]]]
    {
      pencils := pencils[block := pencils[block][layer := pencils[block][layer] + [Frame(number, source.content)]]];
    }
  }
}
