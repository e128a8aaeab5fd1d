/**
 * Frames and exposure, independent of the camera driver (src/camera_capture.cpp), with the recorder's
 * frame layout (src/openvins_runner/sensor_runner.cpp).
 */
module CameraCaptures {
  import opened Basics

  const WIDTH := 1280

  const HEIGHT := 800

  function StepOf(highByte: bool): nat {
    if highByte then 2 else 1
  }

  /** Where pixel `x` of row `y` starts in a buffer with this stride. */
  function At(stride: nat, highByte: bool, x: nat, y: nat): nat {
    y * stride + x * StepOf(highByte)
  }

  /** The buffer holds every row; the last row needs no padding. */
  predicate Complete(data: seq<Byte>, stride: nat, highByte: bool) {
    WIDTH * StepOf(highByte) <= stride && stride * (HEIGHT - 1) + WIDTH * StepOf(highByte) <= |data|
  }

  lemma RowsFit(data: seq<Byte>, stride: nat, highByte: bool, x: nat, y: nat)
    requires Complete(data, stride, highByte) && x < WIDTH && y < HEIGHT
    ensures At(stride, highByte, x, y) + StepOf(highByte) <= |data|
  {
    var limit := HEIGHT - 1;
    Monotone(y, limit, stride);
  }

  lemma Monotone(a: nat, b: nat, c: nat)
    requires a <= b
    ensures a * c <= c * b
  {
  }

  /** The pixel itself is the high byte of its step. */
  function PixelAt(data: seq<Byte>, stride: nat, highByte: bool, x: nat, y: nat): Byte
    requires Complete(data, stride, highByte) && x < WIDTH && y < HEIGHT
  {
    RowsFit(data, stride, highByte, x, y);
    data[At(stride, highByte, x, y) + StepOf(highByte) - 1]
  }

  /** Every low byte is zero, as the calibrated 8-bit-in-16 layout has it. */
  ghost predicate LowBytesClear(data: seq<Byte>, stride: nat, highByte: bool)
    requires Complete(data, stride, highByte)
  {
    forall x: nat, y: nat :: x < WIDTH && y < HEIGHT ==> LowByteClear(data, stride, highByte, x, y)
  }

  ghost predicate LowByteClear(data: seq<Byte>, stride: nat, highByte: bool, x: nat, y: nat)
    requires Complete(data, stride, highByte) && x < WIDTH && y < HEIGHT
  {
    RowsFit(data, stride, highByte, x, y);
    highByte ==> data[At(stride, highByte, x, y)] == 0
  }

  /** `pixels` is the image in the buffer, row by row without padding. */
  ghost predicate IsImage(pixels: seq<Byte>, data: seq<Byte>, stride: nat, highByte: bool)
    requires Complete(data, stride, highByte)
  {
    && |pixels| == WIDTH * HEIGHT
    && forall x: nat, y: nat :: x < WIDTH && y < HEIGHT ==>
         pixels[y * WIDTH + x] == PixelAt(data, stride, highByte, x, y)
  }

  /** `copy_mono_frame`; null where it throws. Every buffer access is within `data`. */
  method CopyMonoFrame(data: array?<Byte>, stride: nat, highByte: bool) returns (pixels: array?<Byte>)
    ensures pixels == null <==>
              data == null || !Complete(data[..], stride, highByte) || !LowBytesClear(data[..], stride, highByte)
    ensures pixels != null ==> fresh(pixels) && IsImage(pixels[..], data[..], stride, highByte)
  {
    if data == null {
      return null;
    }
    var step := StepOf(highByte);
    var rowBytes := WIDTH * step;
    if stride < rowBytes || data.Length < stride * (HEIGHT - 1) + rowBytes {
      return null;
    }
    var copy := new Byte[WIDTH * HEIGHT];
    var y := 0;
    while y < HEIGHT
      invariant 0 <= y <= HEIGHT
      invariant RowsDone(copy[..], data[..], stride, highByte, y)
    {
      var x := 0;
      while x < WIDTH
        invariant 0 <= x <= WIDTH
        invariant RowsDone(copy[..], data[..], stride, highByte, y)
        invariant RowDone(copy[..], data[..], stride, highByte, x, y)
      {
        RowsFit(data[..], stride, highByte, x, y);
        ghost var was := copy[..];
        if highByte && data[y * stride + x * 2] != 0 {
          assert !LowByteClear(data[..], stride, highByte, x, y);
          return null;
        }
        copy[y * WIDTH + x] := data[y * stride + x * step + step - 1];
        PixelKeepsRows(was, data[..], stride, highByte, x, y);
        assert copy[..] == was[y * WIDTH + x := PixelAt(data[..], stride, highByte, x, y)];
        x := x + 1;
      }
      RowFinished(copy[..], data[..], stride, highByte, y);
      y := y + 1;
    }
    RowsAreImage(copy[..], data[..], stride, highByte);
    return copy;
  }

  ghost predicate PixelDone(pixels: seq<Byte>, data: seq<Byte>, stride: nat, highByte: bool, x: nat, y: nat)
    requires Complete(data, stride, highByte) && x < WIDTH && y < HEIGHT
  {
    && y * WIDTH + x < |pixels| && pixels[y * WIDTH + x] == PixelAt(data, stride, highByte, x, y)
    && LowByteClear(data, stride, highByte, x, y)
  }

  ghost predicate RowsDone(pixels: seq<Byte>, data: seq<Byte>, stride: nat, highByte: bool, rows: nat)
    requires Complete(data, stride, highByte) && rows <= HEIGHT
  {
    && |pixels| == WIDTH * HEIGHT
    && forall x: nat, y: nat :: x < WIDTH && y < rows ==> PixelDone(pixels, data, stride, highByte, x, y)
  }

  ghost predicate RowDone(pixels: seq<Byte>, data: seq<Byte>, stride: nat, highByte: bool, columns: nat, y: nat)
    requires Complete(data, stride, highByte) && columns <= WIDTH && y < HEIGHT
  {
    forall x: nat :: x < columns ==> PixelDone(pixels, data, stride, highByte, x, y)
  }

  lemma PixelKeepsRows(pixels: seq<Byte>, data: seq<Byte>, stride: nat, highByte: bool, x: nat, y: nat)
    requires Complete(data, stride, highByte) && x < WIDTH && y < HEIGHT && LowByteClear(data, stride, highByte, x, y)
    requires RowsDone(pixels, data, stride, highByte, y) && RowDone(pixels, data, stride, highByte, x, y)
    ensures y * WIDTH + x < |pixels|
    ensures var next := pixels[y * WIDTH + x := PixelAt(data, stride, highByte, x, y)];
            RowsDone(next, data, stride, highByte, y) && RowDone(next, data, stride, highByte, x + 1, y)
  {
    var next := pixels[y * WIDTH + x := PixelAt(data, stride, highByte, x, y)];
    hide PixelAt, LowByteClear;
    forall u: nat, v: nat | u < WIDTH && v < y
      ensures PixelDone(next, data, stride, highByte, u, v)
    {
      assert PixelDone(pixels, data, stride, highByte, u, v);
    }
    forall u: nat | u < x + 1
      ensures PixelDone(next, data, stride, highByte, u, y)
    {
      if u < x {
        assert PixelDone(pixels, data, stride, highByte, u, y);
      }
    }
  }

  lemma RowFinished(pixels: seq<Byte>, data: seq<Byte>, stride: nat, highByte: bool, y: nat)
    requires Complete(data, stride, highByte) && y < HEIGHT
    requires RowsDone(pixels, data, stride, highByte, y) && RowDone(pixels, data, stride, highByte, WIDTH, y)
    ensures RowsDone(pixels, data, stride, highByte, y + 1)
  {
    hide PixelDone;
  }

  lemma RowsAreImage(pixels: seq<Byte>, data: seq<Byte>, stride: nat, highByte: bool)
    requires Complete(data, stride, highByte) && RowsDone(pixels, data, stride, highByte, HEIGHT)
    ensures IsImage(pixels, data, stride, highByte) && LowBytesClear(data, stride, highByte)
  {
    hide PixelAt, LowByteClear;
    forall x: nat, y: nat | x < WIDTH && y < HEIGHT
      ensures pixels[y * WIDTH + x] == PixelAt(data, stride, highByte, x, y) && LowByteClear(data, stride, highByte, x, y)
    {
      assert PixelDone(pixels, data, stride, highByte, x, y);
    }
  }

  // ---- what the copy depends on

  /** The rows of two buffers agree byte for byte; their strides and padding may differ. */
  ghost predicate SameRows(one: seq<Byte>, stride: nat, other: seq<Byte>, stride': nat, highByte: bool)
    requires Complete(one, stride, highByte) && Complete(other, stride', highByte)
  {
    forall x: nat, y: nat, b: nat :: x < WIDTH && y < HEIGHT && b < StepOf(highByte) ==>
      SameByte(one, stride, other, stride', highByte, x, y, b)
  }

  ghost predicate SameByte(one: seq<Byte>, stride: nat, other: seq<Byte>, stride': nat, highByte: bool,
                           x: nat, y: nat, b: nat)
    requires Complete(one, stride, highByte) && Complete(other, stride', highByte)
    requires x < WIDTH && y < HEIGHT && b < StepOf(highByte)
  {
    RowsFit(one, stride, highByte, x, y);
    RowsFit(other, stride', highByte, x, y);
    one[At(stride, highByte, x, y) + b] == other[At(stride', highByte, x, y) + b]
  }

  /** Padding does not matter: buffers with the same rows give the same image or both give none. */
  lemma PaddingIsIgnored(one: seq<Byte>, stride: nat, other: seq<Byte>, stride': nat, highByte: bool, pixels: seq<Byte>)
    requires Complete(one, stride, highByte) && Complete(other, stride', highByte)
    requires SameRows(one, stride, other, stride', highByte)
    ensures IsImage(pixels, one, stride, highByte) <==> IsImage(pixels, other, stride', highByte)
    ensures LowBytesClear(one, stride, highByte) <==> LowBytesClear(other, stride', highByte)
  {
    hide At;
    forall x: nat, y: nat | x < WIDTH && y < HEIGHT
      ensures PixelAt(one, stride, highByte, x, y) == PixelAt(other, stride', highByte, x, y)
      ensures LowByteClear(one, stride, highByte, x, y) == LowByteClear(other, stride', highByte, x, y)
    {
      assert SameByte(one, stride, other, stride', highByte, x, y, 0);
      assert SameByte(one, stride, other, stride', highByte, x, y, StepOf(highByte) - 1);
    }
  }

  lemma Position(i: nat)
    requires i < WIDTH * HEIGHT
    ensures i % WIDTH < WIDTH && i / WIDTH < HEIGHT && (i / WIDTH) * WIDTH + i % WIDTH == i
  {
  }

  /** A buffer holds at most one image. */
  lemma ImageIsUnique(pixels: seq<Byte>, pixels': seq<Byte>, data: seq<Byte>, stride: nat, highByte: bool)
    requires Complete(data, stride, highByte)
    requires IsImage(pixels, data, stride, highByte) && IsImage(pixels', data, stride, highByte)
    ensures pixels == pixels'
  {
    hide PixelAt;
    forall i: nat | i < WIDTH * HEIGHT
      ensures pixels[i] == pixels'[i]
    {
      Position(i);
      assert pixels[(i / WIDTH) * WIDTH + i % WIDTH] == PixelAt(data, stride, highByte, i % WIDTH, i / WIDTH);
    }
  }

  // ---- the recorder's layout

  /** The camera thread's recording layout: each pixel in the high byte of two. */
  function Recorded(pixels: seq<Byte>): (raw: seq<Byte>)
    ensures |raw| == 2 * |pixels|
  {
    seq(2 * |pixels|, i requires 0 <= i < 2 * |pixels| => if i % 2 == 0 then 0 else pixels[i / 2])
  }

  lemma RecordedBytes(pixels: seq<Byte>, i: nat)
    requires i < |pixels|
    ensures Recorded(pixels)[2 * i] == 0 && Recorded(pixels)[2 * i + 1] == pixels[i]
  {
  }

  /** Copying a recorded frame gives its pixels back, for any pixels. */
  lemma RecordingRoundTrip(pixels: seq<Byte>)
    requires |pixels| == WIDTH * HEIGHT
    ensures var raw, stride := Recorded(pixels), 2 * WIDTH;
            && Complete(raw, stride, true) && LowBytesClear(raw, stride, true) && IsImage(pixels, raw, stride, true)
  {
    hide Recorded;
    var raw, stride := Recorded(pixels), 2 * WIDTH;
    forall x: nat, y: nat | x < WIDTH && y < HEIGHT
      ensures PixelAt(raw, stride, true, x, y) == pixels[y * WIDTH + x] && LowByteClear(raw, stride, true, x, y)
    {
      RecordedBytes(pixels, y * WIDTH + x);
      assert At(stride, true, x, y) == 2 * (y * WIDTH + x);
    }
  }

  /** How far apart the replay checks low bytes: every pixel of the first frame, then a sample. */
  function Spacing(first: bool): nat {
    if first then 1 else 997
  }

  /** The low byte of pixel `i`. */
  function Low(raw: seq<Byte>, i: nat): Byte
    requires i < |raw| / 2
  {
    raw[2 * i]
  }

  /** `frame_thread`'s check. */
  ghost predicate Sampled(raw: seq<Byte>, first: bool) {
    forall i: nat :: i < |raw| / 2 && i % Spacing(first) == 0 ==> Low(raw, i) == 0
  }

  function HighBytes(raw: seq<Byte>): seq<Byte> {
    seq(|raw| / 2, i requires 0 <= i < |raw| / 2 => raw[2 * i + 1])
  }

  /** The replay thread's loops over a raw frame; false where it stops the process. */
  method DecodeFrame(raw: array<Byte>, first: bool) returns (ok: bool, image: array<Byte>)
    ensures ok == Sampled(raw[..], first)
    ensures fresh(image) && (ok ==> image[..] == HighBytes(raw[..]))
  {
    var count := raw.Length / 2;
    image := new Byte[count];
    var i := 0;
    while i < count
      invariant 0 <= i && i % Spacing(first) == 0
      invariant forall j: nat :: j < i && j < count && j % Spacing(first) == 0 ==> Low(raw[..], j) == 0
    {
      if raw[2 * i] != 0 {
        assert Low(raw[..], i) != 0;
        return false, image;
      }
      i := i + Spacing(first);
    }
    i := 0;
    while i < count
      invariant 0 <= i <= count
      invariant forall j :: 0 <= j < i ==> image[j] == raw[2 * j + 1]
    {
      image[i] := raw[2 * i + 1];
      i := i + 1;
    }
    return true, image;
  }

  /** Replay undoes recording on every frame, first or later. */
  lemma ReplayUndoesRecording(pixels: seq<Byte>, first: bool)
    ensures Sampled(Recorded(pixels), first) && HighBytes(Recorded(pixels)) == pixels
  {
    hide Recorded;
    forall i: nat | i < |pixels|
      ensures Low(Recorded(pixels), i) == 0 && Recorded(pixels)[2 * i + 1] == pixels[i]
    {
      RecordedBytes(pixels, i);
    }
  }

  /**
   * A first frame that is accepted is exactly the recording of its image. A later frame is when its
   * unsampled low bytes are zero too, and only then: those are not looked at.
   */
  lemma AcceptedFrameIsARecording(raw: seq<Byte>, first: bool)
    requires |raw| % 2 == 0 && Sampled(raw, first)
    ensures Recorded(HighBytes(raw)) == raw
            <==> forall i: nat :: i < |raw| / 2 && i % Spacing(first) != 0 ==> Low(raw, i) == 0
    ensures first ==> Recorded(HighBytes(raw)) == raw
  {
    hide Recorded, HighBytes, Low;
    RecordedHighBytes(raw);
  }

  /**
   * What a later frame may hide: any recording with any one of its unsampled low bytes changed to anything
   * is still accepted, and decodes to the same image, but is no recording unless that byte stayed zero.
   */
  lemma UnsampledByteGoesUnseen(pixels: seq<Byte>, i: nat, low: Byte)
    requires i < |pixels| && i % 997 != 0
    ensures var raw := Recorded(pixels)[2 * i := low];
            && Sampled(raw, false) && HighBytes(raw) == pixels
            && (Recorded(HighBytes(raw)) == raw <==> low == 0)
  {
    var raw := Recorded(pixels)[2 * i := low];
    ReplayUndoesRecording(pixels, false);
    forall k: nat | k < |raw| / 2
      ensures k != i ==> Low(raw, k) == 0
      ensures HighBytes(raw)[k] == pixels[k]
    {
      RecordedBytes(pixels, k);
    }
    assert Low(raw, i) == low;
    hide Recorded, HighBytes, Low;
    RecordedHighBytes(raw);
  }

  lemma RecordedHighBytes(raw: seq<Byte>)
    requires |raw| % 2 == 0
    ensures Recorded(HighBytes(raw)) == raw <==> forall i: nat :: i < |raw| / 2 ==> Low(raw, i) == 0
  {
    if forall i: nat :: i < |raw| / 2 ==> Low(raw, i) == 0 {
      ClearLowBytes(raw);
    } else {
      var i: nat :| i < |raw| / 2 && Low(raw, i) != 0;
      hide Recorded, HighBytes;
      RecordedByte(raw, 2 * i, i);
    }
  }

  lemma ClearLowBytes(raw: seq<Byte>)
    requires |raw| % 2 == 0 && forall i: nat :: i < |raw| / 2 ==> Low(raw, i) == 0
    ensures Recorded(HighBytes(raw)) == raw
  {
    assert |Recorded(HighBytes(raw))| == |raw|;
    hide Recorded, HighBytes, Low;
    forall k: nat | k < |raw|
      ensures Recorded(HighBytes(raw))[k] == raw[k]
    {
      ClearByte(raw, k);
    }
  }

  lemma ClearByte(raw: seq<Byte>, k: nat)
    requires |raw| % 2 == 0 && k < |raw| && forall i: nat :: i < |raw| / 2 ==> Low(raw, i) == 0
    ensures |Recorded(HighBytes(raw))| == |raw| && Recorded(HighBytes(raw))[k] == raw[k]
  {
    hide Recorded, HighBytes;
    RecordedByte(raw, k, k / 2);
  }

  lemma RecordedByte(raw: seq<Byte>, k: nat, i: nat)
    requires |raw| % 2 == 0 && k < |raw| && (k == 2 * i || k == 2 * i + 1)
    ensures var back := Recorded(HighBytes(raw));
            && |back| == |raw| && back[k] == (if k == 2 * i then 0 else raw[k])
            && (k == 2 * i ==> Low(raw, i) == raw[k])
  {
    RecordedBytes(HighBytes(raw), i);
  }

  /** A buffer of one byte a pixel without padding is its own image. */
  lemma UnpaddedIsItsOwnImage(data: seq<Byte>)
    requires |data| == WIDTH * HEIGHT
    ensures Complete(data, WIDTH, false) && LowBytesClear(data, WIDTH, false) && IsImage(data, data, WIDTH, false)
  {
  }

  // ---- timestamps

  /** `camera_timestamp`; None where it throws. */
  function CameraTimestamp(sensor: Time, offset: Time, now: Time, previous: Time): Option<Time> {
    if offset < 0 || sensor <= offset then None
    else if sensor - offset <= previous || sensor - offset > now + 10_000_000 || now - (sensor - offset) > 2_000_000_000
    then None
    else Some(sensor - offset)
  }

  datatype Exposed = Exposed(sensor: Time, offset: Time, now: Time)

  /** The timestamps of a run of frames; each is checked against the one accepted before it. */
  function Timestamps(frames: seq<Exposed>): Option<seq<Time>> {
    if frames == [] then Some([])
    else
      var n := |frames| - 1;
      match Timestamps(frames[..n])
      case None => None
      case Some(before) =>
        var previous := if before == [] then 0 else before[|before| - 1];
        match CameraTimestamp(frames[n].sensor, frames[n].offset, frames[n].now, previous)
        case None => None
        case Some(t) => Some(before + [t])
  }

  /** The exposure time of frame `i` on the monotonic clock is positive, near the clock, and later than the last. */
  predicate InTime(frames: seq<Exposed>, i: nat)
    requires i < |frames|
  {
    var t := frames[i].sensor - frames[i].offset;
    && 0 <= frames[i].offset && 0 < t && frames[i].now - 2_000_000_000 <= t <= frames[i].now + 10_000_000
    && (i > 0 ==> frames[i - 1].sensor - frames[i - 1].offset < t)
  }

  /**
   * A run of frames is accepted exactly when every timestamp is positive, at most two seconds behind and ten
   * milliseconds ahead of the clock, and later than the one before; the timestamps are then the exposure times
   * on the monotonic clock, and strictly increase.
   */
  lemma {:induction false} TimestampsIncrease(frames: seq<Exposed>)
    ensures Timestamps(frames).Some? <==> forall i: nat :: i < |frames| ==> InTime(frames, i)
    ensures Timestamps(frames).Some? ==>
              var ts := Timestamps(frames).value;
              && |ts| == |frames|
              && (forall i :: 0 <= i < |ts| ==> ts[i] == frames[i].sensor - frames[i].offset > 0)
              && (forall i, j :: 0 <= i < j < |ts| ==> ts[i] < ts[j])
  {
    if frames == [] {
    } else {
      var n := |frames| - 1;
      var rest := frames[..n];
      TimestampsIncrease(rest);
      assert forall i: nat :: i < n ==> (InTime(rest, i) <==> InTime(frames, i));
      if Timestamps(rest).Some? {
        var before := Timestamps(rest).value;
        var previous := if before == [] then 0 else before[|before| - 1];
        AcceptedExactly(frames[n], previous);
        assert InTime(frames, n) <==> CameraTimestamp(frames[n].sensor, frames[n].offset, frames[n].now, previous).Some?;
      }
    }
  }

  lemma AcceptedExactly(e: Exposed, previous: Time)
    requires previous >= 0
    ensures var t := e.sensor - e.offset;
            CameraTimestamp(e.sensor, e.offset, e.now, previous)
            == if e.offset >= 0 && previous < t && e.now - 2_000_000_000 <= t <= e.now + 10_000_000 then Some(t) else None
  {
  }

  // ---- exposure

  datatype Exposure = Exposure(shutter: nat, gain: real)

  /** The amount of light an exposure gathers. */
  function Light(e: Exposure): real {
    e.shutter as real * e.gain
  }

  /** The shutter and gain for an amount of light, shutter times gain. */
  function ForLight(product: real, maxShutter: nat): Option<Exposure> {
    if product < 1.0 || product > maxShutter as real * 16.0 then None
    else
      var shutter := (if product < maxShutter as real then product else maxShutter as real).Floor;
      if shutter <= 0 then None
      else Some(Exposure(shutter, if product / shutter as real < 1.0 then 1.0 else product / shutter as real))
  }

  /** The automatic mode, from the exposure the camera settled on. */
  function AutoExposure(measured: Exposure, maxShutter: nat): Option<Exposure> {
    ForLight(Light(measured), maxShutter)
  }

  lemma QuotientBounds(product: real, d: real, limit: real)
    requires d > 0.0 && d <= product <= limit * d
    ensures 1.0 <= product / d <= limit && d * (product / d) == product
  {
    var r := product / d;
    assert r * d == product;
    if r < 1.0 {
      Positive(1.0 - r, d, d - r * d);
    }
    if r > limit {
      Positive(r - limit, d, r * d - limit * d);
    }
  }

  /**
   * In range exactly when there is a result, which keeps the light exactly, respects the limits, and has the
   * longest shutter that will do.
   */
  predicate KeepsLight(product: real, maxShutter: nat, r: Option<Exposure>) {
    && (r.Some? <==> 1.0 <= product <= maxShutter as real * 16.0)
    && (r.Some? ==>
          && 1 <= r.value.shutter <= maxShutter && 1.0 <= r.value.gain <= 16.0
          && (r.value.shutter == maxShutter || product < r.value.shutter as real + 1.0)
          && Light(r.value) == product)
  }

  lemma LightIsKept(product: real, maxShutter: nat)
    ensures KeepsLight(product, maxShutter, ForLight(product, maxShutter))
  {
    if 1.0 <= product <= maxShutter as real * 16.0 {
      var shutter := (if product < maxShutter as real then product else maxShutter as real).Floor;
      QuotientBounds(product, shutter as real, 16.0);
    }
  }

  /**
   * Automatic exposure succeeds exactly when the measured light is in range, keeps shutter times gain
   * exactly, stays within the limits, and takes the longest shutter that will do.
   */
  lemma AutoKeepsTheLight(measured: Exposure, maxShutter: nat)
    ensures KeepsLight(Light(measured), maxShutter, AutoExposure(measured, maxShutter))
  {
    hide KeepsLight, ForLight, Light;
    LightIsKept(Light(measured), maxShutter);
  }

  const SHUTTERS := [20, 30, 50, 75, 100, 200, 500, 1000, 2000, 4000]

  /** What a probe at one shutter measured: the clipped share and the mean brightness. */
  datatype Probe = Probe(shutter: nat, clipped: real, mean: real)

  predicate Usable(p: Probe) {
    p.clipped <= 0.01 && p.mean >= 15.0
  }

  /** `k` is the first brightest usable probe, or without any the first least clipped one. */
  ghost predicate Best(probes: seq<Probe>, k: nat) {
    && k < |probes|
    && if exists i :: 0 <= i < |probes| && Usable(probes[i]) then
         && Usable(probes[k])
         && (forall i :: 0 <= i < |probes| && Usable(probes[i]) ==> probes[i].mean <= probes[k].mean)
         && (forall i :: 0 <= i < k && Usable(probes[i]) ==> probes[i].mean < probes[k].mean)
       else
         && (forall i :: 0 <= i < |probes| ==> probes[k].clipped <= probes[i].clipped)
         && (forall i :: 0 <= i < k ==> probes[k].clipped < probes[i].clipped)
  }

  lemma BestIsUnique(probes: seq<Probe>, j: nat, k: nat)
    requires Best(probes, j) && Best(probes, k)
    ensures j == k
  {
  }

  /** The choice among the probes. */
  method Choose(probes: seq<Probe>) returns (chosen: Probe)
    requires probes != []
    ensures exists at: nat :: at < |probes| && Best(probes, at) && chosen == probes[at]
  {
    chosen := probes[0];
    ghost var at: nat := 0;
    var usable := false;
    for i := 0 to |probes|
      invariant at < |probes| && chosen == probes[at]
      invariant i == 0 ==> at == 0 && !usable
      invariant i > 0 ==> at < i && Best(probes[..i], at) && (usable <==> exists j :: 0 <= j < i && Usable(probes[j]))
    {
      var candidate := Usable(probes[i]);
      ghost var before := at;
      if (candidate && (!usable || probes[i].mean > chosen.mean)) || (!candidate && !usable && probes[i].clipped < chosen.clipped) {
        chosen := probes[i];
        at := i;
      }
      if i > 0 {
        BestSoFar(probes[..i], probes[i], before);
      }
      assert probes[..i + 1] == probes[..i] + [probes[i]];
      usable := usable || candidate;
    }
    assert probes[..|probes|] == probes;
  }

  lemma BestSoFar(probes: seq<Probe>, p: Probe, at: nat)
    requires Best(probes, at)
    ensures var usable := exists j :: 0 <= j < |probes| && Usable(probes[j]);
            var better := if Usable(p) then !usable || p.mean > probes[at].mean
                          else !usable && p.clipped < probes[at].clipped;
            Best(probes + [p], if better then |probes| else at)
  {
  }

  /** The shutters the sweep tries. */
  function Allowed(shutters: seq<nat>, maxShutter: nat): (r: seq<nat>)
    ensures forall s :: s in r <==> s in shutters && s <= maxShutter
  {
    if shutters == [] then []
    else
      var rest := Allowed(shutters[..|shutters| - 1], maxShutter);
      var last := shutters[|shutters| - 1];
      if last > maxShutter then rest else rest + [last]
  }

  /** A camera session at one shutter: its clipped share and mean brightness, or None where it throws. */
  type Camera = nat -> Option<(real, real)>

  /**
   * The sweep. A probe that is cancelled, times out, loses the camera or finds other dimensions throws, and
   * so does the sweep.
   */
  method Sweep(maxShutter: nat, probe: Camera) returns (r: Option<Exposure>)
    ensures r.Some? <==> maxShutter >= 20 && AllSucceed(Allowed(SHUTTERS, maxShutter), probe)
    ensures r.Some? ==> SweepBest(SHUTTERS, maxShutter, probe, r.value.shutter) && r.value.gain == 1.0
  {
    hide SweepBest, AllSucceed;
    r := SweepOver(SHUTTERS, maxShutter, probe);
    ShortestIsAllowed(maxShutter);
  }

  lemma ShortestIsAllowed(maxShutter: nat)
    ensures Allowed(SHUTTERS, maxShutter) != [] <==> maxShutter >= 20
  {
    var allowed := Allowed(SHUTTERS, maxShutter);
    assert 20 in SHUTTERS && forall s :: s in SHUTTERS ==> s >= 20;
    if allowed != [] {
      assert allowed[0] in allowed;
    }
    assert maxShutter >= 20 ==> 20 in allowed;
  }

  /** Its loop, over any list of shutters. */
  method SweepOver(shutters: seq<nat>, maxShutter: nat, probe: Camera) returns (r: Option<Exposure>)
    ensures r.Some? <==> Allowed(shutters, maxShutter) != [] && AllSucceed(Allowed(shutters, maxShutter), probe)
    ensures r.Some? ==> SweepBest(shutters, maxShutter, probe, r.value.shutter) && r.value.gain == 1.0
  {
    hide Best;
    var probes: seq<Probe> := [];
    for i := 0 to |shutters|
      invariant AllSucceed(Allowed(shutters[..i], maxShutter), probe)
      invariant probes == Probes(Allowed(shutters[..i], maxShutter), probe)
    {
      assert shutters[..i + 1][..i] == shutters[..i];
      if shutters[i] > maxShutter {
        continue;
      }
      var measured := probe(shutters[i]);
      if measured.None? {
        assert shutters[i] in Allowed(shutters, maxShutter);
        return None;
      }
      probes := probes + [Probe(shutters[i], measured.value.0, measured.value.1)];
    }
    assert shutters[..|shutters|] == shutters;
    if probes == [] {
      return None;
    }
    var chosen := Choose(probes);
    ghost var at: nat :| at < |probes| && Best(probes, at) && chosen == probes[at];
    assert chosen.shutter == Allowed(shutters, maxShutter)[at];
    return Some(Exposure(chosen.shutter, 1.0));
  }

  ghost predicate AllSucceed(shutters: seq<nat>, probe: Camera) {
    forall s :: s in shutters ==> probe(s).Some?
  }

  ghost function Probes(shutters: seq<nat>, probe: Camera): (r: seq<Probe>)
    requires AllSucceed(shutters, probe)
    ensures |r| == |shutters|
  {
    seq(|shutters|, i requires 0 <= i < |shutters| =>
      Probe(shutters[i], probe(shutters[i]).value.0, probe(shutters[i]).value.1))
  }

  /** The best of the allowed shutters by the rule of `Best`. */
  ghost predicate SweepBest(shutters: seq<nat>, maxShutter: nat, probe: Camera, shutter: nat) {
    var allowed := Allowed(shutters, maxShutter);
    AllSucceed(allowed, probe)
    && exists at: nat :: at < |allowed| && allowed[at] == shutter && Best(Probes(allowed, probe), at)
  }
}
