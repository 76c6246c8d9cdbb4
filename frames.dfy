/** Splitting a video into the frames that are kept: every `interval`-th frame of the
    decoded stream is written to the data directory under a consecutive number. */
module Frames {
  import opened Outcomes
  import opened Canvas
  import opened Decimal

  /** Python's a // b on integers: the floor of a / b. Dafny's `/` is Euclidean, which
      differs from the floor when the divisor is negative. */
  function FloorDiv(a: int, b: int): (q: int)
    requires b != 0
    ensures b > 0 ==> b * q <= a < b * (q + 1)
    ensures b < 0 ==> b * (q + 1) < a <= b * q
  {
    if b > 0 then a / b else (-a) / (-b)
  }

  /** Frames are dropped only when the source rate exceeds the maximum:
      `fps // fps_max if fps > fps_max else 1`. The division fails for fps_max == 0. */
  predicate IntervalDefined(fps: nat, fpsMax: int)
  {
    !(fps > fpsMax && fpsMax == 0)
  }

  function FrameInterval(fps: nat, fpsMax: int): (interval: int)
    requires IntervalDefined(fps, fpsMax)
    ensures fps > 0 && fpsMax != 0 ==> interval != 0
  {
    if fps > fpsMax then FloorDiv(fps, fpsMax) else 1
  }

  /** For a positive maximum the interval is at least 1, all frames are kept when the
      source is not faster than the maximum, and otherwise the kept rate fps / interval
      lies in [fps_max, 2 * fps_max): it can exceed the maximum, never upsamples. */
  lemma FrameIntervalPositive(fps: nat, fpsMax: int)
    requires fpsMax >= 1
    ensures FrameInterval(fps, fpsMax) >= 1
    ensures fps <= fpsMax ==> FrameInterval(fps, fpsMax) == 1
    ensures fps > fpsMax ==>
      FrameInterval(fps, fpsMax) * fpsMax <= fps < 2 * FrameInterval(fps, fpsMax) * fpsMax
  {
    if fps > fpsMax {
      var iv := FrameInterval(fps, fpsMax);
      assert fpsMax * iv <= fps < fpsMax * (iv + 1);
      assert iv >= 1 by {
        if iv < 1 {
          assert false;
        }
      }
      assert fpsMax * (iv + 1) <= fpsMax * (2 * iv);
    }
  }

  function Abs(x: int): nat
  {
    if x < 0 then -x else x
  }

  /** The indices below n that the loop keeps, `frame_count % interval == 0`, in order.
      A remainder is zero exactly when the interval divides the index, under Python's
      and under Dafny's definition of `%` alike. */
  function KeptIndices(n: nat, interval: int): (r: seq<nat>)
    requires interval != 0
    ensures forall j :: 0 <= j < |r| ==> r[j] < n
  {
    if n == 0 then []
    else KeptIndices(n - 1, interval) + (if (n - 1) % interval == 0 then [n - 1] else [])
  }

  /** An index is kept exactly when it is below n and a multiple of the interval. */
  lemma {:induction false} KeptIndicesMembers(n: nat, interval: int)
    requires interval != 0
    ensures forall k :: k in KeptIndices(n, interval) <==> 0 <= k < n && k % interval == 0
  {
    if n > 0 {
      KeptIndicesMembers(n - 1, interval);
    }
  }

  /** Kept indices are listed in strictly increasing order, i.e. in source order. */
  lemma {:induction false} KeptIndicesIncreasing(n: nat, interval: int)
    requires interval != 0
    ensures forall i, j :: 0 <= i < j < |KeptIndices(n, interval)| ==>
      KeptIndices(n, interval)[i] < KeptIndices(n, interval)[j]
  {
    if n > 0 {
      KeptIndicesIncreasing(n - 1, interval);
    }
  }

  /** Remainders by b and by -b vanish together. */
  lemma ModSign(k: int, b: int)
    requires b != 0
    ensures k % b == 0 <==> k % Abs(b) == 0
  {
    if b < 0 {
      assert k % b == k % (-b);
    }
  }

  lemma DivUnique(x: int, a: int, q: int, r: int)
    requires a > 0 && x == a * q + r && 0 <= r < a
    ensures x / a == q
  {
    var q', r' := x / a, x % a;
    assert x == a * q' + r' && 0 <= r' < a;
    assert a * (q - q') == r' - r;
    if q > q' {
      MulAtLeast(a, q - q');
    } else if q < q' {
      MulAtLeast(a, q' - q);
    }
  }

  lemma MulAtLeast(a: int, t: int)
    requires a > 0 && t >= 1
    ensures a * t >= a
  {
  }

  /** ceil((m + 1) / a) exceeds ceil(m / a) exactly when a divides m. */
  lemma CeilStep(m: nat, a: int)
    requires a > 0
    ensures (m + a) / a == (m + a - 1) / a + (if m % a == 0 then 1 else 0)
  {
    var q, r := m / a, m % a;
    assert m == a * q + r && 0 <= r < a;
    DivUnique(m + a, a, q + 1, r);
    if r == 0 {
      DivUnique(m + a - 1, a, q, a - 1);
    } else {
      DivUnique(m + a - 1, a, q + 1, r - 1);
    }
  }

  /** There are ceil(n / |interval|) kept frames. */
  lemma {:induction false} KeptIndicesCount(n: nat, interval: int)
    requires interval != 0
    ensures |KeptIndices(n, interval)| == (n + Abs(interval) - 1) / Abs(interval)
  {
    if n > 0 {
      KeptIndicesCount(n - 1, interval);
      ModSign(n - 1, interval);
      CeilStep(n - 1, Abs(interval));
    }
  }

  /** A 30 fps source with a maximum of 10 keeps every third frame: 0, 3, 6, ... */
  lemma EveryThirdFrameAtThirtyFps()
    ensures FrameInterval(30, 10) == 3
    ensures KeptIndices(7, 3) == [0, 3, 6]
  {
  }

  /** A 19 fps source with a maximum of 10 has interval 19 // 10 == 1 and keeps all of its
      frames: ten frames keep ten, at 19 frames per second. */
  lemma NineteenFpsKeepsEveryFrame()
    ensures FrameInterval(19, 10) == 1
    ensures |KeptIndices(10, FrameInterval(19, 10))| == 10
  {
    KeptIndicesCount(10, 1);
  }

  /** Where frame number `count` is written: f"./data/{noms_images + str(count)}.png".
      AsciiArtVideo reads the same path back as f"./data/{nom}{i}.png". */
  function FramePath(prefix: string, count: nat): string
  {
    "./data/" + prefix + DecimalString(count) + ".png"
  }

  /** Distinct frame numbers name distinct files, so no kept frame overwrites another. */
  lemma FramePathInjective(prefix: string, i: nat, j: nat)
    requires FramePath(prefix, i) == FramePath(prefix, j)
    ensures i == j
  {
    var head := "./data/" + prefix;
    var s, t := FramePath(prefix, i), FramePath(prefix, j);
    assert s == head + DecimalString(i) + ".png";
    assert |DecimalString(i)| == |DecimalString(j)|;
    assert s[|head|..|s| - 4] == DecimalString(i);
    assert t[|head|..|t| - 4] == DecimalString(j);
    DecimalStringInjective(i, j);
  }

  /** A path is one of the first `count` frame files of the prefix. */
  ghost predicate IsFramePath(prefix: string, count: nat, p: string)
  {
    exists j :: 0 <= j < count && p == FramePath(prefix, j)
  }

  /** The outcome of a decomposition: the number of kept frames and the data directory
      after they were written. */
  datatype Extraction = Extraction(count: nat, dir: map<string, Raster>)

  /** `after` is `before` with kept frame number j, for every j < count, written at
      FramePath(prefix, j), where `kept` lists the source indices of those frames. */
  ghost predicate Written(frames: seq<Raster>, kept: seq<nat>, prefix: string,
                          before: map<string, Raster>, count: nat, after: map<string, Raster>)
    requires forall j :: 0 <= j < |kept| ==> kept[j] < |frames|
  {
    && count == |kept|
    && (forall j :: 0 <= j < count ==>
          FramePath(prefix, j) in after && after[FramePath(prefix, j)] == frames[kept[j]])
    && (forall p :: p in after <==> p in before || IsFramePath(prefix, count, p))
    && (forall p :: p in before && !IsFramePath(prefix, count, p) ==> after[p] == before[p])
  }

  /** Writing the next kept frame under the next number extends a decomposition. */
  lemma WrittenExtend(frames: seq<Raster>, kept: seq<nat>, prefix: string,
                      before: map<string, Raster>, count: nat, after: map<string, Raster>, k: nat)
    requires forall j :: 0 <= j < |kept| ==> kept[j] < |frames|
    requires k < |frames|
    requires Written(frames, kept, prefix, before, count, after)
    ensures Written(frames, kept + [k], prefix, before, count + 1,
                    after[FramePath(prefix, count) := frames[k]])
  {
    var p := FramePath(prefix, count);
    forall j | 0 <= j < count ensures FramePath(prefix, j) != p {
      if FramePath(prefix, j) == p {
        FramePathInjective(prefix, j, count);
      }
    }
    assert IsFramePath(prefix, count + 1, p);
    forall q | IsFramePath(prefix, count + 1, q) && q != p
      ensures IsFramePath(prefix, count, q)
    {
      var j :| 0 <= j < count + 1 && q == FramePath(prefix, j);
      assert j < count;
    }
    forall q | IsFramePath(prefix, count, q) ensures IsFramePath(prefix, count + 1, q) {
      var j :| 0 <= j < count && q == FramePath(prefix, j);
    }
  }

  /** vidéo_vers_images: read the frames one by one, keep frame k when k % interval == 0
      and write it as the next numbered file. The frames are the decoded stream; the
      maximum frame size is accepted and not used. Raises ZeroDivisionError when fps_max
      is zero and fps positive (the interval), when the interval is zero and a frame is
      read (the remainder), and whenever fps is zero (the duration TMP / fps). */
  method VideoToImages(frames: seq<Raster>, fps: nat, dataDir: map<string, Raster>,
                       fpsMax: int := 10, tailleFrameMaxi: int := 7000,
                       nomsImages: string := "frame")
    returns (r: Result<Extraction>)
    ensures r.Err? <==> fps == 0 || fpsMax == 0
    ensures r.Err? ==> r.error == ZeroDivisionError
    ensures r.Ok? ==> Written(frames, KeptIndices(|frames|, FrameInterval(fps, fpsMax)),
                              nomsImages, dataDir, r.value.count, r.value.dir)
  {
    if fps > fpsMax && fpsMax == 0 {
      return Err(ZeroDivisionError);
    }
    var interval := FrameInterval(fps, fpsMax);
    var dir: map<string, Raster> := dataDir;
    var count := 0;
    var frameCount := 0;
    while frameCount < |frames|
      invariant 0 <= frameCount <= |frames|
      invariant interval != 0 || frameCount == 0
      invariant interval != 0 ==>
        Written(frames, KeptIndices(frameCount, interval), nomsImages, dataDir, count, dir)
    {
      if interval == 0 {
        return Err(ZeroDivisionError);
      }
      if frameCount % interval == 0 {
        WrittenExtend(frames, KeptIndices(frameCount, interval), nomsImages, dataDir,
                      count, dir, frameCount);
        dir := dir[FramePath(nomsImages, count) := frames[frameCount]];
        count := count + 1;
      }
      assert KeptIndices(frameCount + 1, interval) == KeptIndices(frameCount, interval)
        + (if frameCount % interval == 0 then [frameCount] else []);
      frameCount := frameCount + 1;
    }
    if fps == 0 {
      return Err(ZeroDivisionError);
    }
    r := Ok(Extraction(count, dir));
  }
}
