/** The size catalog: the Android density buckets (legacy and adaptive) and the
    iOS (point size, scale) pairs, in the order the generators walk them. */
module Specs {

  /** A density bucket: the resource folder and the side of the square icon in pixels. */
  datatype Bucket = Bucket(folder: string, size: nat)

  const AndroidSizes: seq<Bucket> := [
    Bucket("mipmap-mdpi", 48),
    Bucket("mipmap-hdpi", 72),
    Bucket("mipmap-xhdpi", 96),
    Bucket("mipmap-xxhdpi", 144),
    Bucket("mipmap-xxxhdpi", 192)
  ]

  const AdaptiveIconSizes: seq<Bucket> := [
    Bucket("mipmap-mdpi", 108),
    Bucket("mipmap-hdpi", 162),
    Bucket("mipmap-xhdpi", 216),
    Bucket("mipmap-xxhdpi", 324),
    Bucket("mipmap-xxxhdpi", 432)
  ]

  /** An iOS slot. The point size is kept in halves so that 83.5 is exact. */
  datatype IosSize = IosSize(halfPoints: nat, scale: nat)

  /** A slot with a whole point size. */
  function Whole(points: nat, scale: nat): IosSize {
    IosSize(2 * points, scale)
  }

  function Points(item: IosSize): real {
    item.halfPoints as real / 2.0
  }

  /** The side of the rendered square: point size times scale. */
  function PixelSize(item: IosSize): real {
    Points(item) * item.scale as real
  }

  const IosSizes: seq<IosSize> := [
    Whole(20, 1), Whole(20, 2), Whole(20, 3),      // notification
    Whole(29, 1), Whole(29, 2), Whole(29, 3),      // settings
    Whole(40, 1), Whole(40, 2), Whole(40, 3),      // spotlight
    Whole(60, 2), Whole(60, 3),                    // iPhone app
    Whole(76, 1), Whole(76, 2),                    // iPad app
    IosSize(167, 2),                               // iPad Pro app, 83.5 points
    Whole(1024, 1)                                 // App Store
  ]

  predicate StrictlyIncreasing(t: seq<Bucket>) {
    forall i, j :: 0 <= i < j < |t| ==> t[i].size < t[j].size
  }

  /** Both Android tables list the same five folders in the same order. */
  lemma AndroidTablesShareFolders()
    ensures |AndroidSizes| == |AdaptiveIconSizes| == 5
    ensures forall i :: 0 <= i < 5 ==> AndroidSizes[i].folder == AdaptiveIconSizes[i].folder
    ensures forall i, j :: 0 <= i < j < 5 ==> AndroidSizes[i].folder != AndroidSizes[j].folder
  {
  }

  /** Every adaptive canvas is 9/4 of the legacy icon of the same bucket (108 = 48 * 2.25). */
  lemma AdaptiveIsNineQuartersOfLegacy()
    ensures forall i :: 0 <= i < |AndroidSizes| ==> 4 * AdaptiveIconSizes[i].size == 9 * AndroidSizes[i].size
  {
  }

  lemma AndroidTablesIncreasing()
    ensures StrictlyIncreasing(AndroidSizes) && StrictlyIncreasing(AdaptiveIconSizes)
  {
  }

  /** Fifteen distinct slots, every scale 1x, 2x or 3x, every pixel size whole (83.5 * 2 = 167). */
  lemma IosCatalogShape()
    ensures |IosSizes| == 15
    ensures forall i, j :: 0 <= i < j < |IosSizes| ==> IosSizes[i] != IosSizes[j]
    ensures forall i :: 0 <= i < |IosSizes| ==> 1 <= IosSizes[i].scale <= 3
    ensures forall i :: 0 <= i < |IosSizes| ==> PixelSize(IosSizes[i]) == ((IosSizes[i].halfPoints * IosSizes[i].scale) / 2) as real
    ensures forall i :: 0 <= i < |IosSizes| ==> (IosSizes[i].halfPoints * IosSizes[i].scale) % 2 == 0
  {
  }
}
