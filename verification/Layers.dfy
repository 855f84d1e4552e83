/** What the compositor knows about one layer of the stack; index 0 is the bottom. */
module Layers {
  import opened Geometry

  datatype Format =
    | ARGB8888 | ABGR8888 | XBGR8888 | XRGB8888
    | YVU420 | YUV420 | YUV422 | UYVY | YUYV | NV12 | NV21 | RGB565 | BGR565
    | OtherFormat

  datatype Blending = BlendNone | PreMult | Coverage

  datatype Transform = FlipH | FlipV | Rotate90 | Rotate180 | Rotate270

  datatype Layer = Layer(
    frame: Rect,
    cropWidth: real,
    cropHeight: real,
    format: Format,
    blending: Blending,
    transform: set<Transform>,
    isProtected: bool,
    handle: nat,
    wantsFence: bool)

  function Frames(layers: seq<Layer>): (frames: seq<Rect>)
    ensures |frames| == |layers|
  {
    seq(|layers|, i requires 0 <= i < |layers| => layers[i].frame)
  }
}
