/**
 * The sprite sheet's frame slicing, as geometry only: which rectangle of the
 * sheet each frame is cut from and what size the returned image has.  The
 * pixels themselves, and the file loading in the sheet's constructor, are
 * not modelled.
 */
module Sprites {
  import opened Numeric
  import opened Geometry
  import Config

  /**
   * An image returned by `get_image`: either the `source` rectangle of the
   * sheet, possibly rescaled to `width` x `height`, or the red placeholder
   * built when the scaling raises.
   */
  datatype Image = Cut(width: int, height: int, source: Rect) | Placeholder(width: int, height: int)

  /** `get_image(x, y, w, h, scale)`: cut, then rescale to `int(w*scale) x int(h*scale)` unless `scale == 1`. */
  function GetImage(x: int, y: int, w: nat, h: nat, scale: real): (img: Image)
    ensures scale == 1.0 ==> img == Cut(w, h, Rect(x, y, w, h))
    ensures scale >= 0.0 ==> img.Cut? && img.source == Rect(x, y, w, h)
    ensures scale > 0.0 ==>
      img.width as real <= w as real * scale < img.width as real + 1.0 &&
      img.height as real <= h as real * scale < img.height as real + 1.0
    ensures img.Placeholder? <==>
      scale != 1.0 && (Trunc(w as real * scale) < 0 || Trunc(h as real * scale) < 0)
    ensures img.Placeholder? ==> img.width == w && img.height == h
  {
    if scale == 1.0 then
      Cut(w, h, Rect(x, y, w, h))
    else
      var nw := Trunc(w as real * scale);
      var nh := Trunc(h as real * scale);
      // pygame refuses to scale to a negative size; the except branch answers with an unscaled placeholder
      if nw < 0 || nh < 0 then Placeholder(w, h) else Cut(nw, nh, Rect(x, y, w, h))
  }

  /** `get_animation_frames`: frame i of the row is cut at column i, in frame order. */
  method GetAnimationFrames(row: int, numFrames: int, frameWidth: nat, frameHeight: nat, scale: real)
    returns (frames: seq<Image>)
    ensures |frames| == Max(0, numFrames)
    ensures forall i :: 0 <= i < |frames| ==>
      frames[i] == GetImage(i * frameWidth, row * frameHeight, frameWidth, frameHeight, scale)
    ensures scale >= 0.0 ==> forall i :: 0 <= i < |frames| ==>
      frames[i].Cut? && frames[i].source == Rect(i * frameWidth, row * frameHeight, frameWidth, frameHeight)
  {
    frames := [];
    var frame := 0;
    while frame < numFrames
      invariant 0 <= frame == |frames|
      invariant frame <= Max(0, numFrames)
      invariant forall i :: 0 <= i < |frames| ==>
        frames[i] == GetImage(i * frameWidth, row * frameHeight, frameWidth, frameHeight, scale)
    {
      var x := frame * frameWidth;
      var y := row * frameHeight;
      frames := frames + [GetImage(x, y, frameWidth, frameHeight, scale)];
      frame := frame + 1;
    }
    forall i | 0 <= i < |frames| && scale >= 0.0
      ensures frames[i].Cut? && frames[i].source == Rect(i * frameWidth, row * frameHeight, frameWidth, frameHeight)
    {
      CutSource(i * frameWidth, row * frameHeight, frameWidth, frameHeight, scale);
    }
  }

  lemma CutSource(x: int, y: int, w: nat, h: nat, scale: real)
    requires scale >= 0.0
    ensures GetImage(x, y, w, h, scale).Cut? && GetImage(x, y, w, h, scale).source == Rect(x, y, w, h)
  {
  }

  /** The player's 50x37 frames at scale 2.0 come out 100x74, the size the player's rectangle takes. */
  lemma PlayerFrameSize(x: int, y: int)
    ensures GetImage(x, y, 50, 37, 2.0) == Cut(Config.PLAYER_W, Config.PLAYER_H, Rect(x, y, 50, 37))
  {
  }

  /** When the scaling raises, the fallback keeps the unscaled size, unlike the image the normal path would give. */
  lemma FallbackIgnoresScale(x: int, y: int, w: nat, h: nat, scale: real)
    requires scale < 0.0 && w as real * scale <= -1.0
    ensures GetImage(x, y, w, h, scale) == Placeholder(w, h)
    ensures GetImage(x, y, w, h, scale).width != Trunc(w as real * scale)
  {
  }
}
